/** Python's ordering of strings (lexicographic by code point), `sorted()` of a dict's keys,
    and `sorted(xs, key=...)` by a string key. */
module Ordering {

  /** Python's `a <= b` on `str`. */
  predicate StrLe(a: string, b: string)
    decreases |a|
  {
    |a| == 0 || (|b| > 0 && (a[0] < b[0] || (a[0] == b[0] && StrLe(a[1..], b[1..]))))
  }

  lemma {:induction false} StrLeRefl(a: string)
    ensures StrLe(a, a)
    decreases |a|
  {
    if |a| > 0 { StrLeRefl(a[1..]); }
  }

  lemma {:induction false} StrLeTotal(a: string, b: string)
    ensures StrLe(a, b) || StrLe(b, a)
    decreases |a|
  {
    if |a| > 0 && |b| > 0 && a[0] == b[0] { StrLeTotal(a[1..], b[1..]); }
  }

  lemma {:induction false} StrLeAntisym(a: string, b: string)
    requires StrLe(a, b) && StrLe(b, a)
    ensures a == b
    decreases |a|
  {
    if |a| > 0 {
      StrLeAntisym(a[1..], b[1..]);
      assert a == [a[0]] + a[1..] && b == [b[0]] + b[1..];
    }
  }

  lemma {:induction false} StrLeTrans(a: string, b: string, c: string)
    requires StrLe(a, b) && StrLe(b, c)
    ensures StrLe(a, c)
    decreases |a|
  {
    if |a| > 0 && a[0] == b[0] && b[0] == c[0] { StrLeTrans(a[1..], b[1..], c[1..]); }
  }

  /** Every element is `<=` every later one. */
  predicate Sorted(s: seq<string>) {
    forall i, j :: 0 <= i < j < |s| ==> StrLe(s[i], s[j])
  }

  predicate IsLeast(m: string, keys: set<string>) {
    m in keys && forall k :: k in keys ==> StrLe(m, k)
  }

  lemma {:induction false} LeastExists(keys: set<string>)
    requires keys != {}
    ensures exists m :: IsLeast(m, keys)
    decreases |keys|
  {
    var x :| x in keys;
    var rest := keys - {x};
    if rest == {} {
      assert keys == {x};
      StrLeRefl(x);
      assert IsLeast(x, keys);
    } else {
      LeastExists(rest);
      var m :| IsLeast(m, rest);
      StrLeTotal(m, x);
      if StrLe(m, x) {
        assert IsLeast(m, keys);
      } else {
        StrLeRefl(x);
        forall k | k in keys ensures StrLe(x, k) {
          if k != x { StrLeTrans(x, m, k); }
        }
        assert IsLeast(x, keys);
      }
    }
  }

  lemma LeastUnique(keys: set<string>)
    ensures forall a, b :: IsLeast(a, keys) && IsLeast(b, keys) ==> a == b
  {
    forall a, b | IsLeast(a, keys) && IsLeast(b, keys) ensures a == b {
      StrLeAntisym(a, b);
    }
  }

  /** The keys of a dict in the order `sorted(d.items())` visits them: the least key first,
      then the others sorted. That this order is sorted and repeats no key is the lemma
      `SortedKeysSorted`. */
  function SortedKeys(keys: set<string>): (r: seq<string>)
    ensures |r| == |keys|
    ensures forall k :: k in keys <==> k in r
    decreases |keys|
  {
    if keys == {} then []
    else
      LeastExists(keys);
      LeastUnique(keys);
      var m :| IsLeast(m, keys);
      [m] + SortedKeys(keys - {m})
  }

  lemma {:induction false} SortedKeysSorted(keys: set<string>)
    ensures Sorted(SortedKeys(keys))
    ensures forall i, j :: 0 <= i < j < |SortedKeys(keys)| ==> SortedKeys(keys)[i] != SortedKeys(keys)[j]
    decreases |keys|
  {
    if keys != {} {
      var r := SortedKeys(keys);
      var m := r[0];
      SortedKeysHead(keys);
      var rest := SortedKeys(keys - {m});
      SortedKeysSorted(keys - {m});
      LeastBeforeRest(m, keys, rest);
      ConsSorted(m, rest);
    }
  }

  /** The least key is below, and differs from, every key of the others. */
  lemma LeastBeforeRest(m: string, keys: set<string>, rest: seq<string>)
    requires IsLeast(m, keys)
    requires forall k :: k in keys - {m} <==> k in rest
    ensures forall i :: 0 <= i < |rest| ==> StrLe(m, rest[i]) && rest[i] != m
  {
    forall i | 0 <= i < |rest| ensures StrLe(m, rest[i]) && rest[i] != m {
      assert rest[i] in rest;
    }
  }

  /** A key below and different from every key of a sorted, repetition-free sequence extends it
      at the front. */
  lemma ConsSorted(m: string, rest: seq<string>)
    requires Sorted(rest) && forall i, j :: 0 <= i < j < |rest| ==> rest[i] != rest[j]
    requires forall i :: 0 <= i < |rest| ==> StrLe(m, rest[i]) && rest[i] != m
    ensures var r := [m] + rest;
            Sorted(r) && forall i, j :: 0 <= i < j < |r| ==> r[i] != r[j]
  {
    var r := [m] + rest;
    forall i, j | 0 <= i < j < |r| ensures StrLe(r[i], r[j]) && r[i] != r[j] {
      if i > 0 {
        assert r[i] == rest[i - 1] && r[j] == rest[j - 1];
      } else {
        assert r[j] == rest[j - 1];
      }
    }
  }

  /** The least key comes first, followed by the sorted others. */
  lemma SortedKeysHead(keys: set<string>)
    requires keys != {}
    ensures var r := SortedKeys(keys);
            IsLeast(r[0], keys) && r == [r[0]] + SortedKeys(keys - {r[0]})
  {
  }

  /** Every element's key is `<=` every later element's key. */
  predicate SortedBy<T>(s: seq<T>, key: T -> string) {
    forall i, j :: 0 <= i < j < |s| ==> StrLe(key(s[i]), key(s[j]))
  }

  /** Inserts `x` before the first element whose key is not smaller than its own. Its facts
      are the lemma `InsertBySorted`. */
  function InsertBy<T>(x: T, s: seq<T>, key: T -> string): seq<T>
    decreases |s|
  {
    if s == [] then [x]
    else if StrLe(key(x), key(s[0])) then [x] + s
    else [s[0]] + InsertBy(x, s[1..], key)
  }

  lemma {:induction false} InsertBySorted<T>(x: T, s: seq<T>, key: T -> string)
    requires SortedBy(s, key)
    ensures SortedBy(InsertBy(x, s, key), key)
    ensures multiset(InsertBy(x, s, key)) == multiset(s) + multiset{x}
    decreases |s|
  {
    if s == [] {
    } else if StrLe(key(x), key(s[0])) {
      forall j | 0 <= j < |s| ensures StrLe(key(x), key(s[j])) {
        if j > 0 { StrLeTrans(key(x), key(s[0]), key(s[j])); }
      }
    } else {
      StrLeTotal(key(x), key(s[0]));
      InsertBySorted(x, s[1..], key);
      var t := InsertBy(x, s[1..], key);
      assert multiset(s) == multiset{s[0]} + multiset(s[1..]) by {
        assert s == [s[0]] + s[1..];
      }
      forall j | 0 <= j < |t| ensures StrLe(key(s[0]), key(t[j])) {
        assert t[j] in multiset(t);
        if t[j] != x {
          assert t[j] in multiset(s[1..]);
          var k :| 0 <= k < |s[1..]| && s[1..][k] == t[j];
          assert s[k + 1] == t[j];
        }
      }
      assert InsertBy(x, s, key) == [s[0]] + t;
    }
  }

  /** `sorted(s, key=key)`, as an insertion sort. Its facts are the lemma `SortBySorted`. */
  function SortBy<T>(s: seq<T>, key: T -> string): seq<T>
    decreases |s|
  {
    if s == [] then [] else InsertBy(s[0], SortBy(s[1..], key), key)
  }

  /** The sort orders by key and keeps every element, as often as it occurs. */
  lemma {:induction false} SortBySorted<T>(s: seq<T>, key: T -> string)
    ensures SortedBy(SortBy(s, key), key)
    ensures multiset(SortBy(s, key)) == multiset(s)
    decreases |s|
  {
    if s != [] {
      SortBySorted(s[1..], key);
      InsertBySorted(s[0], SortBy(s[1..], key), key);
      assert SortBy(s, key) == InsertBy(s[0], SortBy(s[1..], key), key);
      assert multiset(s) == multiset(s[1..]) + multiset{s[0]} by {
        assert s == [s[0]] + s[1..];
      }
    }
  }
}
