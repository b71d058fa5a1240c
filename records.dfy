/**
 * The list operations the stores are built from: `includes`-guarded append,
 * `filter` by id, `map` over the entries with a given id, `find` by id and
 * `filter(...).length` by id.  Every record of the stores is identified by a
 * string key, so each operation takes the key projection as a parameter;
 * a plain list of ids uses `Ident` as its key.
 */
module Records {
  import opened Options

  /** The key of an entry of a plain id list is the id itself. */
  function Ident(s: string): string { s }

  /** No value occurs twice in `s`. */
  ghost predicate NoDup<T(!new)>(s: seq<T>) {
    forall i, j :: 0 <= i < j < |s| ==> s[i] != s[j]
  }

  /** No key occurs twice among the entries of `s`. */
  ghost predicate DistinctKeys<T(!new)>(s: seq<T>, key: T -> string) {
    forall i, j :: 0 <= i < j < |s| ==> key(s[i]) != key(s[j])
  }

  lemma NoDupTail<T(!new)>(s: seq<T>)
    requires s != [] && NoDup(s)
    ensures NoDup(s[1..])
  {
    forall i, j | 0 <= i < j < |s[1..]| ensures s[1..][i] != s[1..][j] {
      assert s[1..][i] == s[i + 1] && s[1..][j] == s[j + 1];
    }
  }

  lemma DistinctKeysTail<T(!new)>(s: seq<T>, key: T -> string)
    requires s != [] && DistinctKeys(s, key)
    ensures DistinctKeys(s[1..], key)
  {
    forall i, j | 0 <= i < j < |s[1..]| ensures key(s[1..][i]) != key(s[1..][j]) {
      assert s[1..][i] == s[i + 1] && s[1..][j] == s[j + 1];
    }
  }

  /** `s.includes(x) ? s : [...s, x]`: an append that never duplicates. */
  function AddIfAbsent<T(==,!new)>(s: seq<T>, x: T): (r: seq<T>)
    ensures x in r
    ensures forall y :: y in r <==> y in s || y == x
    ensures r == s || r == s + [x]
    ensures r == s <==> x in s
    ensures NoDup(s) ==> NoDup(r)
  {
    if x in s then s else s + [x]
  }

  /** Adding the same value a second time changes nothing. */
  lemma AddIfAbsentIdempotent<T(!new)>(s: seq<T>, x: T)
    ensures AddIfAbsent(AddIfAbsent(s, x), x) == AddIfAbsent(s, x)
  {
  }

  /** `s.filter(x => key(x) !== k)`. */
  function Without<T(!new)>(s: seq<T>, key: T -> string, k: string): (r: seq<T>)
    ensures |r| <= |s|
    ensures forall x :: x in r <==> x in s && key(x) != k
  {
    if s == [] then []
    else (if key(s[0]) == k then [] else [s[0]]) + Without(s[1..], key, k)
  }

  /** `s.filter(x => key(x) === k).length`. */
  function CountKey<T(!new)>(s: seq<T>, key: T -> string, k: string): (n: nat)
    ensures n <= |s|
    ensures n == 0 <==> forall x :: x in s ==> key(x) != k
  {
    if s == [] then 0
    else (if key(s[0]) == k then 1 else 0) + CountKey(s[1..], key, k)
  }

  /** `s.map(x => key(x) === k ? f(x) : x)`. */
  function Replace<T(!new)>(s: seq<T>, key: T -> string, k: string, f: T -> T): (r: seq<T>)
    ensures |r| == |s|
    ensures forall i :: 0 <= i < |s| ==> r[i] == if key(s[i]) == k then f(s[i]) else s[i]
  {
    if s == [] then []
    else [if key(s[0]) == k then f(s[0]) else s[0]] + Replace(s[1..], key, k, f)
  }

  /** `s.find(x => key(x) === k)`: the first entry with key `k`, if any. */
  function FindFirst<T(!new)>(s: seq<T>, key: T -> string, k: string): (r: Option<T>)
    ensures r.None? <==> forall x :: x in s ==> key(x) != k
    ensures r.Some? ==> r.value in s && key(r.value) == k
    ensures r.Some? ==>
      exists i :: 0 <= i < |s| && s[i] == r.value && key(s[i]) == k &&
        forall j :: 0 <= j < i ==> key(s[j]) != k
  {
    if s == [] then None
    else if key(s[0]) == k then Some(s[0])
    else
      var r := FindFirst(s[1..], key, k);
      assert r.Some? ==> exists i :: 0 <= i < |s[1..]| && s[1..][i] == r.value && key(s[1..][i]) == k &&
                                     forall j :: 0 <= j < i ==> key(s[1..][j]) != k;
      r
  }

  // ---- Filtering ----------------------------------------------------------

  /** Filtering distributes over concatenation: the kept entries stay in their order. */
  lemma {:induction false} WithoutAppend<T(!new)>(a: seq<T>, b: seq<T>, key: T -> string, k: string)
    ensures Without(a + b, key, k) == Without(a, key, k) + Without(b, key, k)
  {
    if a == [] {
      assert a + b == b;
    } else {
      assert (a + b)[1..] == a[1..] + b;
      WithoutAppend(a[1..], b, key, k);
    }
  }

  /** Filtering a list with no entry for `k` returns it unchanged. */
  lemma {:induction false} WithoutNoMatch<T(!new)>(s: seq<T>, key: T -> string, k: string)
    requires forall x :: x in s ==> key(x) != k
    ensures Without(s, key, k) == s
  {
    if s != [] {
      assert s[0] in s;
      WithoutNoMatch(s[1..], key, k);
    }
  }

  /** Filtering twice by the same key is filtering once. */
  lemma WithoutIdempotent<T(!new)>(s: seq<T>, key: T -> string, k: string)
    ensures Without(Without(s, key, k), key, k) == Without(s, key, k)
  {
    WithoutNoMatch(Without(s, key, k), key, k);
  }

  /** Filtering removes exactly the entries with key `k`. */
  lemma {:induction false} WithoutLength<T(!new)>(s: seq<T>, key: T -> string, k: string)
    ensures |Without(s, key, k)| == |s| - CountKey(s, key, k)
  {
    if s != [] {
      WithoutLength(s[1..], key, k);
    }
  }

  /** Filtering keeps a duplicate-free list duplicate-free. */
  lemma {:induction false} WithoutKeepsNoDup<T(!new)>(s: seq<T>, key: T -> string, k: string)
    requires NoDup(s)
    ensures NoDup(Without(s, key, k))
  {
    if s != [] {
      var rest := Without(s[1..], key, k);
      NoDupTail(s);
      WithoutKeepsNoDup(s[1..], key, k);
      assert s[0] !in s[1..] by {
        forall i | 0 <= i < |s[1..]| ensures s[1..][i] != s[0] {
          assert s[1..][i] == s[i + 1];
        }
      }
      assert s[0] !in rest;
    }
  }

  /** Filtering keeps a list with distinct keys free of repeated keys. */
  lemma {:induction false} WithoutKeepsDistinctKeys<T(!new)>(s: seq<T>, key: T -> string, k: string)
    requires DistinctKeys(s, key)
    ensures DistinctKeys(Without(s, key, k), key)
  {
    if s != [] {
      var rest := Without(s[1..], key, k);
      DistinctKeysTail(s, key);
      WithoutKeepsDistinctKeys(s[1..], key, k);
      forall x | x in rest ensures key(x) != key(s[0]) {
        var i :| 0 <= i < |s[1..]| && s[1..][i] == x;
        assert s[i + 1] == x;
      }
      if key(s[0]) != k {
        var r := [s[0]] + rest;
        forall i, j | 0 <= i < j < |r| ensures key(r[i]) != key(r[j]) {
          if i == 0 {
            assert r[j] == rest[j - 1] && r[j] in rest;
          } else {
            assert r[i] == rest[i - 1] && r[j] == rest[j - 1];
          }
        }
      }
    }
  }

  /** Filtering out `k` does not change which entry is found first for another key. */
  lemma {:induction false} FindFirstWithoutOther<T(!new)>(s: seq<T>, key: T -> string, k: string, j: string)
    requires j != k
    ensures FindFirst(Without(s, key, k), key, j) == FindFirst(s, key, j)
  {
    if s != [] {
      var rest := Without(s[1..], key, k);
      FindFirstWithoutOther(s[1..], key, k, j);
      if key(s[0]) == k {
        assert Without(s, key, k) == rest;
      } else {
        var w := [s[0]] + rest;
        assert Without(s, key, k) == w;
        assert w[0] == s[0] && w[1..] == rest;
      }
    }
  }

  // ---- Searching ----------------------------------------------------------

  /** A match in the first part hides every match in the second part. */
  lemma {:induction false} FindFirstAppend<T(!new)>(a: seq<T>, b: seq<T>, key: T -> string, k: string)
    ensures FindFirst(a + b, key, k) == if FindFirst(a, key, k).Some? then FindFirst(a, key, k) else FindFirst(b, key, k)
  {
    if a == [] {
      assert a + b == b;
    } else {
      assert (a + b)[0] == a[0];
      assert (a + b)[1..] == a[1..] + b;
      FindFirstAppend(a[1..], b, key, k);
    }
  }

  // ---- Mapping ------------------------------------------------------------

  /**
   * When `f` keeps keys, mapping over the entries with key `k` does not change
   * which entries carry which key, and the first match for `k` is the image
   * of the old first match.
   */
  lemma {:induction false} FindFirstReplace<T(!new)>(s: seq<T>, key: T -> string, k: string, f: T -> T, j: string)
    requires forall x :: key(f(x)) == key(x)
    ensures FindFirst(Replace(s, key, k, f), key, j) ==
      match FindFirst(s, key, j)
      case Some(x) => if j == k then Some(f(x)) else Some(x)
      case None => None
  {
    if s != [] {
      var r := Replace(s, key, k, f);
      assert r[1..] == Replace(s[1..], key, k, f);
      FindFirstReplace(s[1..], key, k, f, j);
    }
  }

  // ---- Counting -----------------------------------------------------------

  /** Appending one entry raises the count for its key by exactly one. */
  lemma {:induction false} CountKeyAppendOne<T(!new)>(s: seq<T>, x: T, key: T -> string, k: string)
    ensures CountKey(s + [x], key, k) == CountKey(s, key, k) + if key(x) == k then 1 else 0
  {
    if s == [] {
      assert s + [x] == [x];
    } else {
      assert (s + [x])[1..] == s[1..] + [x];
      CountKeyAppendOne(s[1..], x, key, k);
    }
  }
}
