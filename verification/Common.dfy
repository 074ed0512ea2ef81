/** Values shared by the components: optional values, insertion-ordered dictionaries,
    order-preserving filters and the half-even rounding used for reported scores. */
module Common {

  type Id = string

  /** The namespace of a concept: the two of src/core/models.py:53, or whatever else a row may hold. */
  datatype Namespace = Task | Coordination | Other(name: string)

  datatype Option<+T> = None | Some(value: T)

  datatype Result<+T, +E> = Ok(value: T) | Err(error: E)

  ghost predicate Distinct<T>(s: seq<T>) {
    forall i, j :: 0 <= i < j < |s| ==> s[i] != s[j]
  }

  function SetOf<T>(s: seq<T>): (r: set<T>)
    ensures forall x :: x in s ==> x in r
    ensures forall x :: x in r ==> x in s
  {
    set x | x in s
  }

  lemma {:induction false} DistinctCardinality<T>(s: seq<T>)
    requires Distinct(s)
    ensures |SetOf(s)| == |s|
  {
    if s == [] {
      assert SetOf(s) == {};
    } else {
      var n := |s| - 1;
      DistinctCardinality(s[..n]);
      assert s == s[..n] + [s[n]];
      assert SetOf(s) == SetOf(s[..n]) + {s[n]};
      assert s[n] !in s[..n];
    }
  }

  lemma SameElementsSameLength<T(!new)>(a: seq<T>, b: seq<T>)
    requires Distinct(a) && Distinct(b)
    requires forall x :: x in a <==> x in b
    ensures |a| == |b|
  {
    DistinctCardinality(a);
    DistinctCardinality(b);
    assert SetOf(a) == SetOf(b);
  }

  lemma DistinctConcat<T>(a: seq<T>, b: seq<T>)
    requires Distinct(a) && Distinct(b)
    requires forall x :: x in a ==> x !in b
    ensures Distinct(a + b)
  {
    var c := a + b;
    forall i, j | 0 <= i < j < |c|
      ensures c[i] != c[j]
    {
      if i < |a| <= j {
        assert c[i] in a && c[j] in b;
      }
    }
  }

  // ---------- dictionaries that remember insertion order ----------

  /** A dictionary whose iteration order is the order of first insertion. */
  datatype Dict<K(==), V> = Dict(keys: seq<K>, vals: map<K, V>) {
    ghost predicate Valid() {
      && Distinct(keys)
      && (forall k :: k in keys ==> k in vals)
      && (forall k :: k in vals ==> k in keys)
    }

    function GetOr(k: K, default: V): V {
      if k in vals then vals[k] else default
    }

    function Set(k: K, v: V): (d: Dict<K, V>)
      requires Valid()
      ensures d.Valid()
      ensures d.vals == vals[k := v]
      ensures d.keys == if k in vals then keys else keys + [k]
    {
      Dict(if k in vals then keys else keys + [k], vals[k := v])
    }
  }

  // ---------- filters ----------

  /** The elements of s that satisfy p, in their original order. */
  ghost function Filter<T>(s: seq<T>, p: T -> bool): (r: seq<T>)
  {
    if s == [] then [] else
      var n := |s| - 1;
      Filter(s[..n], p) + if p(s[n]) then [s[n]] else []
  }

  lemma FilterAppend<T>(s: seq<T>, x: T, p: T -> bool)
    ensures Filter(s + [x], p) == Filter(s, p) + if p(x) then [x] else []
  {
    assert (s + [x])[..|s|] == s;
  }

  lemma {:induction false} FilterPrepend<T>(x: T, s: seq<T>, p: T -> bool)
    ensures Filter([x] + s, p) == (if p(x) then [x] else []) + Filter(s, p)
  {
    if s == [] {
      assert [x] + s == [x];
      assert Filter([x][..0], p) == [];
    } else {
      var n := |s| - 1;
      FilterPrepend(x, s[..n], p);
      assert ([x] + s)[..n + 1] == [x] + s[..n];
    }
  }

  lemma FilterTail<T>(s: seq<T>, p: T -> bool)
    requires s != []
    ensures p(s[0]) ==> Filter(s, p) != []
    ensures Filter(s[1..], p) == if p(s[0]) then Filter(s, p)[1..] else Filter(s, p)
  {
    assert s == [s[0]] + s[1..];
    FilterPrepend(s[0], s[1..], p);
  }

  lemma {:induction false} FilterContents<T>(s: seq<T>, p: T -> bool)
    ensures forall x :: x in Filter(s, p) <==> x in s && p(x)
  {
    if s != [] {
      var n := |s| - 1;
      FilterContents(s[..n], p);
      assert s == s[..n] + [s[n]];
    }
  }

  /** A stronger test keeps fewer elements, and as many exactly when it is as permissive on s. */
  lemma {:induction false} FilterNarrows<T>(s: seq<T>, p: T -> bool, q: T -> bool)
    requires forall x :: x in s && p(x) ==> q(x)
    ensures |Filter(s, p)| <= |Filter(s, q)|
    ensures |Filter(s, p)| == |Filter(s, q)| <==> forall x :: x in s && q(x) ==> p(x)
  {
    if s != [] {
      var n := |s| - 1;
      assert s == s[..n] + [s[n]];
      FilterNarrows(s[..n], p, q);
    }
  }

  lemma {:induction false} FilterDistinct<T>(s: seq<T>, p: T -> bool)
    requires Distinct(s)
    ensures Distinct(Filter(s, p))
  {
    if s != [] {
      var n := |s| - 1;
      FilterDistinct(s[..n], p);
      FilterContents(s[..n], p);
    }
  }

  lemma {:induction false} FilterCongruence<T>(s: seq<T>, p: T -> bool, q: T -> bool)
    requires forall x :: x in s ==> p(x) == q(x)
    ensures Filter(s, p) == Filter(s, q)
  {
    if s != [] {
      FilterCongruence(s[..|s| - 1], p, q);
    }
  }

  lemma {:induction false} EmptyFilter<T>(s: seq<T>, p: T -> bool)
    requires forall x :: x in s ==> !p(x)
    ensures Filter(s, p) == []
  {
    if s != [] {
      EmptyFilter(s[..|s| - 1], p);
    }
  }

  ghost predicate MappedAt<A, B>(r: seq<B>, s: seq<A>, f: A -> B, i: nat) {
    i < |s| && i < |r| ==> r[i] == f(s[i])
  }

  /** r is the result of f on each element of s, in order. */
  ghost predicate Mapped<A, B>(r: seq<B>, s: seq<A>, f: A -> B) {
    && |r| == |s|
    && forall i: nat {:trigger MappedAt(r, s, f, i)} :: MappedAt(r, s, f, i)
  }

  /** One turn of a loop that appends f of every element that passes the test. */
  lemma MappedFilterStep<A, B>(r: seq<B>, s: seq<A>, i: nat, p: A -> bool, f: A -> B)
    requires i < |s| && Mapped(r, Filter(s[..i], p), f)
    ensures Mapped(if p(s[i]) then r + [f(s[i])] else r, Filter(s[..i + 1], p), f)
  {
    assert s[..i + 1] == s[..i] + [s[i]];
    FilterAppend(s[..i], s[i], p);
    var was, now := Filter(s[..i], p), Filter(s[..i + 1], p);
    var r' := if p(s[i]) then r + [f(s[i])] else r;
    forall k: nat
      ensures MappedAt(r', now, f, k)
    {
      assert MappedAt(r, was, f, k);
    }
  }

  lemma MappedOrigin<A, B(!new)>(r: seq<B>, s: seq<A>, p: A -> bool, f: A -> B, y: B) returns (x: A)
    requires Mapped(r, Filter(s, p), f) && y in r
    ensures x in s && p(x) && y == f(x)
  {
    var picked := Filter(s, p);
    var i :| 0 <= i < |r| && r[i] == y;
    assert MappedAt(r, picked, f, i);
    x := picked[i];
    FilterContents(s, p);
    assert x in picked;
  }

  // ---------- order of first occurrence ----------

  /** The keys of s without repetition, in the order of their first occurrence. */
  ghost function FirstSeen<A, K>(s: seq<A>, keyOf: A -> K): seq<K> {
    if s == [] then [] else
      var before, key := FirstSeen(s[..|s| - 1], keyOf), keyOf(s[|s| - 1]);
      if key in before then before else before + [key]
  }

  lemma FirstSeenGrows<A, K>(s: seq<A>, x: A, keyOf: A -> K)
    ensures var before := FirstSeen(s, keyOf);
            FirstSeen(s + [x], keyOf) == if keyOf(x) in before then before else before + [keyOf(x)]
  {
    assert (s + [x])[..|s|] == s;
  }

  /** Whatever precedes a key in FirstSeen occurs in s before that key does. */
  lemma {:induction false} FirstSeenKeepsOrder<A, K(!new)>(s: seq<A>, keyOf: A -> K)
    ensures Distinct(FirstSeen(s, keyOf))
    ensures forall k :: k in FirstSeen(s, keyOf) <==> exists i :: 0 <= i < |s| && keyOf(s[i]) == k
    ensures AsFound(s, keyOf, FirstSeen(s, keyOf))
  {
    if s != [] {
      var n := |s| - 1;
      FirstSeenKeepsOrder(s[..n], keyOf);
      var before, seen := FirstSeen(s[..n], keyOf), FirstSeen(s, keyOf);
      forall k
        ensures k in seen <==> exists i :: 0 <= i < |s| && keyOf(s[i]) == k
      {
        if k in before {
          var i :| 0 <= i < n && keyOf(s[..n][i]) == k;
          assert keyOf(s[i]) == k;
        }
        if k != keyOf(s[n]) && exists i :: 0 <= i < |s| && keyOf(s[i]) == k {
          var i :| 0 <= i < |s| && keyOf(s[i]) == k;
          assert keyOf(s[..n][i]) == k;
        }
        assert keyOf(s[n]) in seen;
      }
      forall p, q | 0 <= p < q < |seen|
        ensures FoundBefore(s, keyOf, seen[p], seen[q])
      {
        assert before[p] == seen[p] && before[p] in before;
        var i :| 0 <= i < n && keyOf(s[..n][i]) == before[p];
        if q < |before| {
          assert AsFound(s[..n], keyOf, before) && FoundBefore(s[..n], keyOf, before[p], before[q]);
          var f :| 0 <= f < n && keyOf(s[..n][f]) == before[p]
                   && forall j :: 0 <= j <= f ==> keyOf(s[..n][j]) != before[q];
          assert forall j :: 0 <= j < n ==> s[..n][j] == s[j];
          assert keyOf(s[f]) == seen[p];
        } else {
          assert forall j :: 0 <= j < n ==> keyOf(s[j]) != seen[q] by {
            forall j | 0 <= j < n
              ensures keyOf(s[j]) != seen[q]
            {
              assert keyOf(s[..n][j]) in before;
            }
          }
          assert keyOf(s[i]) == seen[p];
        }
      }
    }
  }

  ghost predicate AsFound<A, K>(s: seq<A>, keyOf: A -> K, keys: seq<K>) {
    forall p, q :: 0 <= p < q < |keys| ==> FoundBefore(s, keyOf, keys[p], keys[q])
  }

  /** An element of key a precedes every element of key b. */
  ghost predicate FoundBefore<A, K>(s: seq<A>, keyOf: A -> K, a: K, b: K) {
    exists f :: 0 <= f < |s| && keyOf(s[f]) == a && forall j :: 0 <= j <= f ==> keyOf(s[j]) != b
  }

  // ---------- rounding ----------

  /** Nearest integer; a tie goes to the even neighbour. */
  function RoundHalfEven(x: real): int {
    var f := x.Floor;
    var d := x - f as real;
    if d < 0.5 then f else if d > 0.5 then f + 1 else if f % 2 == 0 then f else f + 1
  }

  function Round3(x: real): real {
    RoundHalfEven(x * 1000.0) as real / 1000.0
  }

  function Round4(x: real): real {
    RoundHalfEven(x * 10000.0) as real / 10000.0
  }

  /** Rounding keeps order and moves a value by at most half a unit. */
  lemma RoundingIsMonotone(x: real, y: real)
    ensures x <= y ==> RoundHalfEven(x) <= RoundHalfEven(y)
    ensures -0.5 <= RoundHalfEven(x) as real - x <= 0.5
  {
    var f, g := x.Floor, y.Floor;
    if x <= y && f != g {
      assert f < g;
    }
  }

  function Distance(x: real, y: real): real {
    if x <= y then y - x else x - y
  }

  /** A value rounded to thousandths is the nearest of them, and of two equally near ones the even one. */
  lemma Round3IsNearest(x: real, k: int)
    ensures Distance(x, Round3(x)) <= Distance(x, k as real / 1000.0)
    ensures Round3(x) != k as real / 1000.0 && Distance(x, Round3(x)) == Distance(x, k as real / 1000.0) ==> k % 2 == 1
  {
    RoundsToNearestInt(x * 1000.0, k);
  }

  /** The same for ten-thousandths. */
  lemma Round4IsNearest(x: real, k: int)
    ensures Distance(x, Round4(x)) <= Distance(x, k as real / 10000.0)
    ensures Round4(x) != k as real / 10000.0 && Distance(x, Round4(x)) == Distance(x, k as real / 10000.0) ==>
              k % 2 == 1
  {
    RoundsToNearestInt(x * 10000.0, k);
  }

  lemma RoundsToNearestInt(x: real, k: int)
    ensures Distance(x, RoundHalfEven(x) as real) <= Distance(x, k as real)
    ensures RoundHalfEven(x) != k && Distance(x, RoundHalfEven(x) as real) == Distance(x, k as real) ==> k % 2 == 1
  {
    var f := x.Floor;
    assert k <= f || k >= f + 1;
  }
}
