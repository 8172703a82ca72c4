/** The contract of `sort_by_key`: a stable sort by a key, and why it leaves no choice of result. */
module StableSort {

  predicate Sorted<T>(key: T -> nat, s: seq<T>)
  {
    forall i, j :: 0 <= i < j < |s| ==> key(s[i]) <= key(s[j])
  }

  /** The elements with key p, in order. */
  function WithKey<T>(key: T -> nat, s: seq<T>, p: nat): (r: seq<T>)
    ensures forall i :: 0 <= i < |r| ==> key(r[i]) == p
  {
    if s == [] then []
    else if key(s[0]) == p then [s[0]] + WithKey(key, s[1..], p)
    else WithKey(key, s[1..], p)
  }

  function Insert<T>(key: T -> nat, x: T, s: seq<T>): (r: seq<T>)
  {
    if s == [] || key(x) <= key(s[0]) then [x] + s else [s[0]] + Insert(key, x, s[1..])
  }

  function SortByKey<T>(key: T -> nat, s: seq<T>): (r: seq<T>)
  {
    if s == [] then [] else Insert(key, s[0], SortByKey(key, s[1..]))
  }

  lemma {:induction false} InsertAdds<T>(key: T -> nat, x: T, s: seq<T>)
    ensures multiset(Insert(key, x, s)) == multiset{x} + multiset(s)
    ensures forall y :: y in Insert(key, x, s) ==> y == x || y in s
  {
    if s == [] || key(x) <= key(s[0]) {
    } else {
      InsertAdds(key, x, s[1..]);
      assert s == [s[0]] + s[1..];
    }
  }

  lemma {:induction false} InsertSorts<T>(key: T -> nat, x: T, s: seq<T>)
    requires Sorted(key, s)
    ensures Sorted(key, Insert(key, x, s))
  {
    if s == [] || key(x) <= key(s[0]) {
    } else {
      var rest := Insert(key, x, s[1..]);
      InsertSorts(key, x, s[1..]);
      forall i | 0 <= i < |rest| ensures key(s[0]) <= key(rest[i]) {
        InsertAdds(key, x, s[1..]);
        assert rest[i] in rest;
      }
    }
  }

  lemma {:induction false} InsertKeepsOrder<T>(key: T -> nat, x: T, s: seq<T>, p: nat)
    ensures WithKey(key, Insert(key, x, s), p) == (if key(x) == p then [x] else []) + WithKey(key, s, p)
  {
    if s == [] || key(x) <= key(s[0]) {
      assert ([x] + s)[1..] == s;
    } else {
      InsertKeepsOrder(key, x, s[1..], p);
      assert ([s[0]] + Insert(key, x, s[1..]))[1..] == Insert(key, x, s[1..]);
    }
  }

  /** Sorted, a permutation, and equal keys keep their order. */
  lemma {:induction false} SortIsStable<T>(key: T -> nat, s: seq<T>)
    ensures Sorted(key, SortByKey(key, s))
    ensures multiset(SortByKey(key, s)) == multiset(s)
    ensures forall p :: WithKey(key, SortByKey(key, s), p) == WithKey(key, s, p)
  {
    if s == [] {
    } else {
      var rest := SortByKey(key, s[1..]);
      SortIsStable(key, s[1..]);
      InsertSorts(key, s[0], rest);
      InsertAdds(key, s[0], rest);
      assert s == [s[0]] + s[1..];
      forall p ensures WithKey(key, SortByKey(key, s), p) == WithKey(key, s, p) {
        InsertKeepsOrder(key, s[0], rest, p);
      }
    }
  }

  lemma {:induction false} WithKeyFinds<T>(key: T -> nat, s: seq<T>, i: nat)
    requires i < |s|
    ensures WithKey(key, s, key(s[i])) != []
  {
    if i == 0 {
    } else {
      WithKeyFinds(key, s[1..], i - 1);
    }
  }

  lemma {:induction false} WithKeyFound<T>(key: T -> nat, s: seq<T>, p: nat)
    requires WithKey(key, s, p) != []
    ensures exists i :: 0 <= i < |s| && key(s[i]) == p
  {
    if key(s[0]) == p {
    } else {
      WithKeyFound(key, s[1..], p);
      var i :| 0 <= i < |s[1..]| && key(s[1..][i]) == p;
      assert key(s[i + 1]) == p;
    }
  }

  /** Two sorted sequences in which every key has the same elements in the same order are the same sequence. */
  lemma {:induction false} StableSortIsUnique<T>(key: T -> nat, a: seq<T>, b: seq<T>)
    requires Sorted(key, a) && Sorted(key, b)
    requires forall p :: WithKey(key, a, p) == WithKey(key, b, p)
    ensures a == b
  {
    if a == [] {
    } else {
      var p := key(a[0]);
      WithKeyFinds(key, a, 0);
      WithKeyFound(key, b, p);
      WithKeyFinds(key, b, 0);
      WithKeyFound(key, a, key(b[0]));
      assert key(b[0]) == p;
      assert WithKey(key, a, p)[0] == a[0] && WithKey(key, b, p)[0] == b[0];
      forall q ensures WithKey(key, a[1..], q) == WithKey(key, b[1..], q) {
        if q == p {
          assert WithKey(key, a[1..], q) == WithKey(key, a, q)[1..];
          assert WithKey(key, b[1..], q) == WithKey(key, b, q)[1..];
        } else {
          assert WithKey(key, a[1..], q) == WithKey(key, a, q);
        }
      }
      StableSortIsUnique(key, a[1..], b[1..]);
      assert a == [a[0]] + a[1..] && b == [b[0]] + b[1..];
    }
  }

  lemma {:induction false} WithKeyConcat<T>(key: T -> nat, a: seq<T>, b: seq<T>, p: nat)
    ensures WithKey(key, a + b, p) == WithKey(key, a, p) + WithKey(key, b, p)
  {
    if a == [] {
      assert a + b == b;
    } else {
      WithKeyConcat(key, a[1..], b, p);
      assert (a + b)[1..] == a[1..] + b;
    }
  }
}
