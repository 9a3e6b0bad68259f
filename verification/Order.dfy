/** UTF-16 text, its code-unit order, and sorting by a text key. */
module Order {

  /** One UTF-16 code unit. A JavaScript string is a sequence of them. */
  type Unit = x: int | 0 <= x < 0x10000

  type Text = seq<Unit>

  /** JavaScript's `<` on strings. */
  predicate Less(a: Text, b: Text) {
    b != [] && (a == [] || a[0] < b[0] || (a[0] == b[0] && Less(a[1..], b[1..])))
  }

  lemma {:induction false} LessIsTotal(a: Text, b: Text)
    ensures Less(a, b) || Less(b, a) || a == b
    ensures !(Less(a, b) && Less(b, a)) && !Less(a, a)
  {
    if a != [] && b != [] {
      LessIsTotal(a[1..], b[1..]);
      LessIsTotal(a[1..], a[1..]);
      assert a == [a[0]] + a[1..] && b == [b[0]] + b[1..];
    } else if a != [] {
      LessIsTotal(a[1..], a[1..]);
    }
  }

  lemma {:induction false} LessIsTransitive(a: Text, b: Text, c: Text)
    requires Less(a, b) && Less(b, c)
    ensures Less(a, c)
  {
    if a != [] && a[0] == b[0] == c[0] { LessIsTransitive(a[1..], b[1..], c[1..]); }
  }

  predicate DistinctKeys<T>(key: T -> Text, xs: seq<T>) {
    forall i, j :: 0 <= i < j < |xs| ==> key(xs[i]) != key(xs[j])
  }

  predicate Ascending<T>(key: T -> Text, xs: seq<T>) {
    forall i, j :: 0 <= i < j < |xs| ==> !Less(key(xs[j]), key(xs[i]))
  }

  predicate StrictlyAscending<T>(key: T -> Text, xs: seq<T>) {
    forall i, j :: 0 <= i < j < |xs| ==> Less(key(xs[i]), key(xs[j]))
  }

  /** A stable sort by key, as `Array.prototype.sort` is. */
  function Sort<T>(key: T -> Text, xs: seq<T>): seq<T> {
    if xs == [] then [] else InsertBefore(key, xs[0], Sort(key, xs[1..]))
  }

  /** Insert in front of equal keys: the element came before them. */
  function InsertBefore<T>(key: T -> Text, x: T, xs: seq<T>): seq<T> {
    if xs == [] || !Less(key(xs[0]), key(x)) then [x] + xs else [xs[0]] + InsertBefore(key, x, xs[1..])
  }

  lemma {:induction false} InsertKeepsBag<T>(key: T -> Text, x: T, xs: seq<T>)
    ensures multiset(InsertBefore(key, x, xs)) == multiset{x} + multiset(xs)
  {
    if !(xs == [] || !Less(key(xs[0]), key(x))) {
      assert xs == [xs[0]] + xs[1..];
      InsertKeepsBag(key, x, xs[1..]);
    }
  }

  lemma {:induction false} InsertKeepsAscending<T>(key: T -> Text, x: T, xs: seq<T>)
    requires Ascending(key, xs)
    ensures Ascending(key, InsertBefore(key, x, xs))
  {
    var r := InsertBefore(key, x, xs);
    if xs == [] {
    } else if !Less(key(xs[0]), key(x)) {
      forall j | 0 < j < |r| ensures !Less(key(r[j]), key(r[0])) {
        NotLessChain(key(xs[j - 1]), key(xs[0]), key(x), j == 1);
      }
    } else {
      InsertKeepsAscending(key, x, xs[1..]);
      InsertKeepsBag(key, x, xs[1..]);
      LessIsTotal(key(xs[0]), key(x));
      forall j | 0 < j < |r| ensures !Less(key(r[j]), key(r[0])) {
        assert r[j] in multiset(InsertBefore(key, x, xs[1..]));
        assert r[j] == x || r[j] in xs[1..];
      }
    }
  }

  /** If `b` is not above `a`'s bound `c` and `a` is not below `b`, then `a` is not below `c`. */
  lemma {:induction false} NotLessChain(a: Text, b: Text, c: Text, same: bool)
    requires same ==> a == b
    requires !same ==> !Less(a, b)
    requires !Less(b, c)
    ensures !Less(a, c)
  {
    if Less(a, c) {
      LessIsTotal(a, b);
      LessIsTotal(b, c);
      if Less(b, a) { LessIsTransitive(b, a, c); }
    }
  }

  lemma {:induction false} SortKeeps<T>(key: T -> Text, xs: seq<T>)
    ensures multiset(Sort(key, xs)) == multiset(xs)
    ensures |Sort(key, xs)| == |xs|
    ensures Ascending(key, Sort(key, xs))
  {
    if xs != [] {
      SortKeeps(key, xs[1..]);
      InsertKeepsBag(key, xs[0], Sort(key, xs[1..]));
      InsertKeepsAscending(key, xs[0], Sort(key, xs[1..]));
      assert xs == [xs[0]] + xs[1..];
    }
    assert |multiset(Sort(key, xs))| == |multiset(xs)|;
  }

  lemma {:induction false} SortIsStrict<T>(key: T -> Text, xs: seq<T>)
    requires DistinctKeys(key, xs)
    ensures StrictlyAscending(key, Sort(key, xs)) && DistinctKeys(key, Sort(key, xs))
  {
    SortKeeps(key, xs);
    var r := Sort(key, xs);
    SameBagDistinct(key, xs, r);
    forall i, j | 0 <= i < j < |r| ensures Less(key(r[i]), key(r[j])) {
      LessIsTotal(key(r[i]), key(r[j]));
    }
  }

  /** Two elements that a bag holds together are at two places of the list. */
  lemma {:induction false} TwoPlaces<T>(xs: seq<T>, a: T, b: T) returns (i: nat, j: nat)
    requires multiset{a, b} <= multiset(xs)
    ensures i < |xs| && j < |xs| && i != j && xs[i] == a && xs[j] == b
  {
    assert xs == [xs[0]] + xs[1..];
    if xs[0] == a {
      assert b in multiset(xs[1..]);
      var k :| 0 <= k < |xs[1..]| && xs[1..][k] == b;
      return 0, k + 1;
    } else if xs[0] == b {
      assert a in multiset(xs[1..]);
      var k :| 0 <= k < |xs[1..]| && xs[1..][k] == a;
      return k + 1, 0;
    } else {
      i, j := TwoPlaces(xs[1..], a, b);
      return i + 1, j + 1;
    }
  }

  lemma PairInBag<T>(xs: seq<T>, i: nat, j: nat)
    requires i < j < |xs|
    ensures multiset{xs[i], xs[j]} <= multiset(xs)
  {
    assert xs == xs[..i] + [xs[i]] + xs[i + 1..j] + [xs[j]] + xs[j + 1..];
  }

  /** Distinctness of keys depends on the bag of elements only. */
  lemma {:induction false} SameBagDistinct<T>(key: T -> Text, xs: seq<T>, ys: seq<T>)
    requires DistinctKeys(key, xs) && multiset(xs) == multiset(ys)
    ensures DistinctKeys(key, ys)
  {
    forall i, j | 0 <= i < j < |ys| ensures key(ys[i]) != key(ys[j]) {
      PairInBag(ys, i, j);
      var a, b := TwoPlaces(xs, ys[i], ys[j]);
    }
  }

  lemma HasMember<T>(xs: seq<T>)
    ensures xs != [] ==> exists x :: x in xs
  {
    if xs != [] { assert xs[0] in xs; }
  }

  /** A strictly ascending list is determined by its elements. */
  lemma {:induction false} AscendingIsUnique<T>(key: T -> Text, xs: seq<T>, ys: seq<T>)
    requires StrictlyAscending(key, xs) && StrictlyAscending(key, ys)
    requires forall x :: x in xs <==> x in ys
    ensures xs == ys
  {
    if xs == [] {
      HasMember(ys);
    } else {
      assert xs[0] in ys;
      assert ys[0] in xs;
      var i :| 0 <= i < |ys| && ys[i] == xs[0];
      var j :| 0 <= j < |xs| && xs[j] == ys[0];
      LessIsTotal(key(xs[0]), key(ys[0]));
      assert xs[0] == ys[0];
      forall x ensures x in xs[1..] <==> x in ys[1..] {
        LessIsTotal(key(xs[0]), key(xs[0]));
        if x in xs[1..] { assert x in ys && x != ys[0]; }
        if x in ys[1..] { assert x in xs && x != xs[0]; }
      }
      AscendingIsUnique(key, xs[1..], ys[1..]);
    }
  }

  /** Sorting by distinct keys forgets the order of the input. */
  lemma {:induction false} SortForgetsOrder<T>(key: T -> Text, xs: seq<T>, ys: seq<T>)
    requires DistinctKeys(key, xs) && multiset(xs) == multiset(ys)
    ensures Sort(key, xs) == Sort(key, ys)
  {
    SameBagDistinct(key, xs, ys);
    SortIsStrict(key, xs);
    SortIsStrict(key, ys);
    SortKeeps(key, xs);
    SortKeeps(key, ys);
    forall x ensures x in Sort(key, xs) <==> x in Sort(key, ys) {
      assert x in Sort(key, xs) <==> x in multiset(Sort(key, xs));
      assert x in Sort(key, ys) <==> x in multiset(Sort(key, ys));
    }
    AscendingIsUnique(key, Sort(key, xs), Sort(key, ys));
  }
}
