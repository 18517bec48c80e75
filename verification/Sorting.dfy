/** Stable sorting by a name, in the order of `str::cmp`. */
module Sorting {
  import opened Lex

  function InsertBy<T(!new)>(key: T -> string, xs: seq<T>, x: T): seq<T> {
    if xs == [] || Less(key(x), key(xs[0])) then [x] + xs else [xs[0]] + InsertBy(key, xs[1..], x)
  }

  function SortBy<T(!new)>(key: T -> string, xs: seq<T>): seq<T> {
    if xs == [] then [] else InsertBy(key, SortBy(key, xs[..|xs| - 1]), xs[|xs| - 1])
  }

  ghost predicate Ascending<T(!new)>(key: T -> string, xs: seq<T>) {
    forall i, j :: 0 <= i < j < |xs| ==> !Less(key(xs[j]), key(xs[i]))
  }

  ghost predicate StrictlyAscending<T(!new)>(key: T -> string, xs: seq<T>) {
    forall i, j :: 0 <= i < j < |xs| ==> Less(key(xs[i]), key(xs[j]))
  }

  ghost predicate DistinctKeys<T(!new)>(key: T -> string, xs: seq<T>) {
    forall i, j :: 0 <= i < j < |xs| ==> key(xs[i]) != key(xs[j])
  }

  lemma {:induction false} InsertKeepsElements<T(!new)>(key: T -> string, xs: seq<T>, x: T)
    ensures forall y :: y in InsertBy(key, xs, x) <==> y in xs || y == x
  {
    if xs != [] && !Less(key(x), key(xs[0])) {
      InsertKeepsElements(key, xs[1..], x);
      assert forall y :: y in xs <==> y == xs[0] || y in xs[1..];
    }
  }

  lemma {:induction false} InsertKeepsKeysDistinct<T(!new)>(key: T -> string, xs: seq<T>, x: T)
    requires DistinctKeys(key, xs) && forall y <- xs :: key(y) != key(x)
    ensures DistinctKeys(key, InsertBy(key, xs, x))
  {
    if xs != [] && !Less(key(x), key(xs[0])) {
      InsertKeepsKeysDistinct(key, xs[1..], x);
      InsertKeepsElements(key, xs[1..], x);
      var rest := InsertBy(key, xs[1..], x);
      forall k | 0 <= k < |rest| ensures key(rest[k]) != key(xs[0]) {
        assert rest[k] in InsertBy(key, xs[1..], x);
        assert rest[k] == x || rest[k] in xs;
      }
    }
  }

  lemma {:induction false} SortKeepsElements<T(!new)>(key: T -> string, xs: seq<T>)
    ensures forall y :: y in SortBy(key, xs) <==> y in xs
  {
    if xs != [] {
      var init, last := xs[..|xs| - 1], xs[|xs| - 1];
      SortKeepsElements(key, init);
      InsertKeepsElements(key, SortBy(key, init), last);
      assert forall y :: y in xs <==> y in init || y == last;
    }
  }

  lemma {:induction false} SortKeepsKeysDistinct<T(!new)>(key: T -> string, xs: seq<T>)
    requires DistinctKeys(key, xs)
    ensures DistinctKeys(key, SortBy(key, xs))
  {
    if xs != [] {
      var init, last := xs[..|xs| - 1], xs[|xs| - 1];
      SortKeepsKeysDistinct(key, init);
      SortKeepsElements(key, init);
      forall y <- SortBy(key, init) ensures key(y) != key(last) {
        assert y in init;
      }
      InsertKeepsKeysDistinct(key, SortBy(key, init), last);
    }
  }

  lemma NotLessIsTransitive(a: string, b: string, c: string)
    requires !Less(b, a) && !Less(c, b)
    ensures !Less(c, a)
  {
    if Less(c, a) {
      LessIsTotal(a, b);
      if a != b {
        LessIsTransitive(c, a, b);
      }
    }
  }

  lemma {:induction false} InsertKeepsAscending<T(!new)>(key: T -> string, xs: seq<T>, x: T)
    requires Ascending(key, xs)
    ensures Ascending(key, InsertBy(key, xs, x))
  {
    if xs == [] {
    } else if Less(key(x), key(xs[0])) {
      forall j | 0 <= j < |xs| ensures !Less(key(xs[j]), key(x)) {
        LessIsAsymmetric(key(x), key(xs[0]));
        if j > 0 {
          NotLessIsTransitive(key(x), key(xs[0]), key(xs[j]));
        }
      }
    } else {
      var rest := InsertBy(key, xs[1..], x);
      InsertKeepsAscending(key, xs[1..], x);
      InsertKeepsElements(key, xs[1..], x);
      forall y | y in rest ensures !Less(key(y), key(xs[0])) {
        assert y == x || y in xs[1..];
        if y in xs[1..] {
          var k :| 1 <= k < |xs| && xs[k] == y;
        }
      }
    }
  }

  lemma {:induction false} SortIsAscending<T(!new)>(key: T -> string, xs: seq<T>)
    ensures Ascending(key, SortBy(key, xs))
  {
    if xs != [] {
      SortIsAscending(key, xs[..|xs| - 1]);
      InsertKeepsAscending(key, SortBy(key, xs[..|xs| - 1]), xs[|xs| - 1]);
    }
  }

  /** Elements whose keys are all different come out with the same elements, in strict order. */
  lemma SortIsStrict<T(!new)>(key: T -> string, xs: seq<T>)
    requires DistinctKeys(key, xs)
    ensures StrictlyAscending(key, SortBy(key, xs)) && forall x :: x in SortBy(key, xs) <==> x in xs
  {
    var ys := SortBy(key, xs);
    SortKeepsElements(key, xs);
    SortKeepsKeysDistinct(key, xs);
    SortIsAscending(key, xs);
    forall i, j | 0 <= i < j < |ys| ensures Less(key(ys[i]), key(ys[j])) {
      LessIsTotal(key(ys[i]), key(ys[j]));
    }
  }

  /** Two strictly sorted lists of the same elements are the same list. */
  lemma {:induction false} StrictIsCanonical<T(!new)>(key: T -> string, xs: seq<T>, ys: seq<T>)
    requires StrictlyAscending(key, xs) && StrictlyAscending(key, ys)
    requires forall x :: x in xs <==> x in ys
    ensures xs == ys
  {
    assert (xs != [] ==> xs[0] in ys) && (ys != [] ==> ys[0] in xs);
    if xs != [] {
      FirstIsLeast(key, xs, ys);
      forall x ensures x in xs[1..] <==> x in ys[1..] {
        NotFirst(key, xs, x);
        NotFirst(key, ys, x);
      }
      StrictIsCanonical(key, xs[1..], ys[1..]);
    }
  }

  lemma FirstIsLeast<T(!new)>(key: T -> string, xs: seq<T>, ys: seq<T>)
    requires StrictlyAscending(key, xs) && StrictlyAscending(key, ys) && xs != [] && ys != []
    requires forall x :: x in xs <==> x in ys
    ensures xs[0] == ys[0]
  {
    assert xs[0] in ys && ys[0] in xs;
    var i :| 0 <= i < |ys| && ys[i] == xs[0];
    var j :| 0 <= j < |xs| && xs[j] == ys[0];
    if i > 0 && j > 0 {
      LessIsAsymmetric(key(ys[0]), key(ys[i]));
    }
  }

  lemma NotFirst<T(!new)>(key: T -> string, xs: seq<T>, x: T)
    requires StrictlyAscending(key, xs) && xs != []
    ensures x in xs[1..] <==> x in xs && x != xs[0]
  {
    if x in xs[1..] {
      var i :| 1 <= i < |xs| && xs[i] == x;
      LessIsIrreflexive(key(xs[0]));
    }
  }
}
