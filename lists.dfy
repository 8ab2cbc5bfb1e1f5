/** The array operations the components build their collections with:
    `filter`, `find`, `some`, `map` and a `reduce` that adds up numbers.
    Each is defined recursively, the way the JavaScript built-in walks the
    array from the front. The contracts of `filter`, `find`, `some` and
    `map` say what their results mean; the sum's properties (one more
    element in front, non-negativity) are the lemmas after it. */
module Lists {

  datatype Option<T> = None | Some(value: T)

  /** `r` keeps some of the elements of `s`, in their original order: each
      element of `s` is either matched by the next element of `r` or skipped. */
  ghost predicate IsSubsequence<T>(r: seq<T>, s: seq<T>)
    decreases |s|
  {
    r == [] ||
    (s != [] && ((r[0] == s[0] && IsSubsequence(r[1..], s[1..])) || IsSubsequence(r, s[1..])))
  }

  lemma {:induction false} SubsequenceOfItself<T>(s: seq<T>)
    ensures IsSubsequence(s, s)
    decreases |s|
  {
    if s != [] {
      SubsequenceOfItself(s[1..]);
    }
  }

  /** `s.filter(p)`: every occurrence of an element satisfying `p` is kept,
      every other one is dropped, and the kept ones stay in order. */
  function Filter<T(!new)>(s: seq<T>, p: T -> bool): (r: seq<T>)
    ensures |r| <= |s|
    ensures forall i :: 0 <= i < |r| ==> p(r[i])
    ensures forall x :: multiset(r)[x] == if p(x) then multiset(s)[x] else 0
    decreases |s|
  {
    if s == [] then []
    else
      assert s == [s[0]] + s[1..];
      var rest := Filter(s[1..], p);
      if p(s[0]) then
        assert ([s[0]] + rest)[1..] == rest;
        [s[0]] + rest
      else
        rest
  }

  /** What a filter keeps stays in the order it had. */
  lemma {:induction false} FilterIsSubsequence<T(!new)>(s: seq<T>, p: T -> bool)
    ensures IsSubsequence(Filter(s, p), s)
    decreases |s|
  {
    if s != [] {
      FilterIsSubsequence(s[1..], p);
      if p(s[0]) {
        assert Filter(s, p)[1..] == Filter(s[1..], p);
      }
    }
  }

  lemma {:induction false} FilterConcat<T(!new)>(a: seq<T>, b: seq<T>, p: T -> bool)
    ensures Filter(a + b, p) == Filter(a, p) + Filter(b, p)
    decreases |a|
  {
    if a == [] {
      assert a + b == b;
    } else {
      var x, rest := a[0], a[1..];
      var front := if p(x) then [x] else [];
      assert a == [x] + rest;
      assert a + b == [x] + (rest + b);
      calc {
        Filter(a + b, p);
        { FilterCons(x, rest + b, p); }
        front + Filter(rest + b, p);
        { FilterConcat(rest, b, p); }
        front + (Filter(rest, p) + Filter(b, p));
        (front + Filter(rest, p)) + Filter(b, p);
        { FilterCons(x, rest, p); }
        Filter(a, p) + Filter(b, p);
      }
    }
  }

  /** Filtering a sequence with one more element in front. */
  lemma FilterCons<T(!new)>(x: T, s: seq<T>, p: T -> bool)
    ensures Filter([x] + s, p) == (if p(x) then [x] else []) + Filter(s, p)
  {
    assert ([x] + s)[0] == x && ([x] + s)[1..] == s;
  }

  /** A filter whose predicate holds everywhere returns its input. */
  lemma {:induction false} FilterKeepsAll<T(!new)>(s: seq<T>, p: T -> bool)
    requires forall i :: 0 <= i < |s| ==> p(s[i])
    ensures Filter(s, p) == s
    decreases |s|
  {
    if s != [] {
      FilterKeepsAll(s[1..], p);
      assert [s[0]] + s[1..] == s;
    }
  }

  /** A filter whose predicate holds nowhere returns the empty sequence. */
  lemma {:induction false} FilterKeepsNone<T(!new)>(s: seq<T>, p: T -> bool)
    requires forall i :: 0 <= i < |s| ==> !p(s[i])
    ensures Filter(s, p) == []
    decreases |s|
  {
    if s != [] {
      FilterKeepsNone(s[1..], p);
    }
  }

  /** A filter keeps nothing exactly when no element satisfies `p`. */
  lemma FilterEmptyIff<T(!new)>(s: seq<T>, p: T -> bool)
    ensures Filter(s, p) == [] <==> forall i :: 0 <= i < |s| ==> !p(s[i])
  {
    if forall i :: 0 <= i < |s| ==> !p(s[i]) {
      FilterKeepsNone(s, p);
    } else {
      var i :| 0 <= i < |s| && p(s[i]);
      assert multiset(Filter(s, p))[s[i]] == multiset(s)[s[i]] > 0;
    }
  }

  /** A filter keeps everything exactly when every element satisfies `p`. */
  lemma {:induction false} FilterFullIff<T(!new)>(s: seq<T>, p: T -> bool)
    ensures |Filter(s, p)| == |s| <==> forall i :: 0 <= i < |s| ==> p(s[i])
    decreases |s|
  {
    if s != [] {
      var x, rest := s[0], s[1..];
      assert s == [x] + rest;
      FilterFullIff(rest, p);
      FilterCons(x, rest, p);
      assert (forall i :: 0 <= i < |s| ==> p(s[i])) <==>
             p(x) && forall i :: 0 <= i < |rest| ==> p(rest[i]);
    }
  }

  /** `s.some(p)`. */
  function Any<T>(s: seq<T>, p: T -> bool): (b: bool)
    ensures b <==> exists i :: 0 <= i < |s| && p(s[i])
    decreases |s|
  {
    if s == [] then false
    else if p(s[0]) then true
    else
      assert forall i :: 1 <= i < |s| ==> s[i] == s[1..][i - 1];
      Any(s[1..], p)
  }

  /** `s.find(p)`: the first element satisfying `p`, if there is one. */
  function Find<T(==)>(s: seq<T>, p: T -> bool): (r: Option<T>)
    ensures r.Some? <==> exists i :: 0 <= i < |s| && p(s[i])
    ensures r.Some? ==> exists i :: 0 <= i < |s| && s[i] == r.value && p(s[i])
                                    && forall j :: 0 <= j < i ==> !p(s[j])
    decreases |s|
  {
    if s == [] then None
    else if p(s[0]) then Some(s[0])
    else
      assert forall i :: 1 <= i < |s| ==> s[i] == s[1..][i - 1];
      var r := Find(s[1..], p);
      if r.Some? then
        var k :| 0 <= k < |s[1..]| && s[1..][k] == r.value && p(s[1..][k])
                 && forall j :: 0 <= j < k ==> !p(s[1..][j]);
        assert s[k + 1] == r.value;
        r
      else r
  }

  /** The ids of a collection of records, `id` giving each record's id. */
  function Ids<T(==)>(s: seq<T>, id: T -> string): set<string> {
    set x | x in s :: id(x)
  }

  /** No two records of `s` share an id. */
  ghost predicate UniqueIds<T>(s: seq<T>, id: T -> string) {
    forall i, j :: 0 <= i < j < |s| ==> id(s[i]) != id(s[j])
  }

  /** Appending a record adds exactly its id. */
  lemma IdsAppend<T>(s: seq<T>, x: T, id: T -> string)
    ensures Ids(s + [x], id) == Ids(s, id) + {id(x)}
  {
    forall y | y in s + [x] ensures y in s || y == x {
      var k :| 0 <= k < |s + [x]| && (s + [x])[k] == y;
      if k < |s| {
        assert s[k] == y;
      }
    }
    assert x in s + [x];
    forall y | y in s ensures y in s + [x] {
      var k :| 0 <= k < |s| && s[k] == y;
      assert (s + [x])[k] == y;
    }
  }

  /** `s.map(f)`. */
  function Map<T, U>(s: seq<T>, f: T -> U): (r: seq<U>)
    ensures |r| == |s|
    ensures forall i :: 0 <= i < |s| ==> r[i] == f(s[i])
    decreases |s|
  {
    if s == [] then [] else [f(s[0])] + Map(s[1..], f)
  }

  /** `s.reduce((sum, x) => sum + amount(x), 0)`. */
  function Sum<T>(s: seq<T>, amount: T -> real): real
    decreases |s|
  {
    if s == [] then 0.0 else amount(s[0]) + Sum(s[1..], amount)
  }

  /** A sum of non-negative amounts is non-negative. */
  lemma {:induction false} SumNonNegative<T>(s: seq<T>, amount: T -> real)
    requires forall i :: 0 <= i < |s| ==> amount(s[i]) >= 0.0
    ensures Sum(s, amount) >= 0.0
    decreases |s|
  {
    if s != [] {
      SumNonNegative(s[1..], amount);
    }
  }

  /** The sum of a sequence with one more element in front. */
  lemma SumCons<T>(x: T, s: seq<T>, amount: T -> real)
    ensures Sum([x] + s, amount) == amount(x) + Sum(s, amount)
  {
    assert ([x] + s)[1..] == s;
  }
}
