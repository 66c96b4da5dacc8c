/** Append-only logs that are read per key, and bags of keyed tokens.
    The notification table, the terminal queue and the call logs are all such logs. */
module Logs {

  /** The elements of a log that belong to key `e`, in log order. */
  function Of<T, K(==)>(s: seq<T>, key: T -> K, e: K): seq<T>
    decreases |s|
  {
    if s == [] then [] else
      var n := |s| - 1;
      Of(s[..n], key, e) + (if key(s[n]) == e then [s[n]] else [])
  }

  /** `r` is the position of the last element that belongs to key `e`. */
  ghost predicate LastOf<T, K>(s: seq<T>, key: T -> K, e: K, r: nat)
  {
    r < |s| && key(s[r]) == e && forall j :: r < j < |s| ==> key(s[j]) != e
  }

  /** The position of the last element that belongs to key `e`, if any does. */
  function Newest<T, K(==)>(s: seq<T>, key: T -> K, e: K): nat
    decreases |s|
  {
    if s == [] then 0 else
      var n := |s| - 1;
      if key(s[n]) == e then n else Newest(s[..n], key, e)
  }

  lemma {:induction false} NewestIsLast<T, K>(s: seq<T>, key: T -> K, e: K)
    requires Of(s, key, e) != []
    ensures LastOf(s, key, e, Newest(s, key, e))
    ensures Of(s, key, e)[|Of(s, key, e)| - 1] == s[Newest(s, key, e)]
    decreases |s|
  {
    var n := |s| - 1;
    if key(s[n]) != e {
      NewestIsLast(s[..n], key, e);
    }
  }

  lemma NewestAppend<T, K>(s: seq<T>, key: T -> K, e: K, x: T)
    ensures Newest(s + [x], key, e) == if key(x) == e then |s| else Newest(s, key, e)
  {
    assert (s + [x])[..|s|] == s;
  }

  lemma OfAppend<T, K>(s: seq<T>, key: T -> K, e: K, x: T)
    ensures Of(s + [x], key, e) == Of(s, key, e) + (if key(x) == e then [x] else [])
  {
    assert (s + [x])[..|s|] == s;
  }

  lemma {:induction false} OfUpdateOther<T, K>(s: seq<T>, key: T -> K, e: K, r: nat, x: T)
    requires r < |s| && key(s[r]) != e && key(x) != e
    ensures Of(s[r := x], key, e) == Of(s, key, e)
    decreases |s|
  {
    var n := |s| - 1;
    if r < n {
      OfUpdateOther(s[..n], key, e, r, x);
      assert s[r := x][..n] == s[..n][r := x];
    } else {
      assert s[r := x][..n] == s[..n];
    }
  }

  /** Overwriting the last element of a key overwrites the last element of that key's own log. */
  lemma {:induction false} OfUpdateLast<T, K>(s: seq<T>, key: T -> K, e: K, r: nat, x: T)
    requires LastOf(s, key, e, r) && key(x) == e
    ensures var own := Of(s, key, e);
            && own != [] && own[|own| - 1] == s[r]
            && Of(s[r := x], key, e) == own[|own| - 1 := x]
    decreases |s|
  {
    var n := |s| - 1;
    if r < n {
      assert key(s[n]) != e;
      OfUpdateLast(s[..n], key, e, r, x);
      assert s[r := x][..n] == s[..n][r := x];
    } else {
      assert s[r := x][..n] == s[..n];
    }
  }

  /** Every element of a key's own log is an element of the log, and belongs to that key. */
  lemma {:induction false} OfIn<T, K>(s: seq<T>, key: T -> K, e: K)
    ensures forall x :: x in Of(s, key, e) <==> x in s && key(x) == e
    decreases |s|
  {
    if s != [] {
      var n := |s| - 1;
      OfIn(s[..n], key, e);
      assert s == s[..n] + [s[n]];
    }
  }

  /** The tokens of a sequence, without their order. */
  function Bag<T, K>(s: seq<T>, f: T -> K): multiset<K>
  {
    if s == [] then multiset{} else multiset{f(s[0])} + Bag(s[1..], f)
  }

  lemma {:induction false} BagConcat<T, K>(a: seq<T>, b: seq<T>, f: T -> K)
    ensures Bag(a + b, f) == Bag(a, f) + Bag(b, f)
  {
    if a == [] {
      assert a + b == b;
    } else {
      var head := multiset{f(a[0])};
      calc {
        Bag(a + b, f);
        { assert (a + b)[1..] == a[1..] + b; }
        head + Bag(a[1..] + b, f);
        { BagConcat(a[1..], b, f); }
        head + (Bag(a[1..], f) + Bag(b, f));
        Bag(a, f) + Bag(b, f);
      }
    }
  }

  lemma BagAppend<T, K>(s: seq<T>, f: T -> K, x: T)
    ensures Bag(s + [x], f) == Bag(s, f) + multiset{f(x)}
  {
    BagConcat(s, [x], f);
    assert Bag([x], f) == multiset{f(x)} + Bag([x][1..], f);
  }

  function Drop<T>(s: seq<T>, i: nat): seq<T>
    requires i < |s|
  {
    s[..i] + s[i + 1..]
  }

  /** Splitting a bag at position `i`: what is there, and the rest. */
  lemma BagAt<T, K>(s: seq<T>, f: T -> K, i: nat)
    requires i < |s|
    ensures Bag(s, f) == Bag(Drop(s, i), f) + multiset{f(s[i])}
  {
    BagConcat(s[..i], s[i..], f);
    BagConcat(s[..i], s[i + 1..], f);
    assert s == s[..i] + s[i..];
    assert s[i..][1..] == s[i + 1..];
  }

  lemma BagUpdate<T, K>(s: seq<T>, f: T -> K, i: nat, x: T)
    requires i < |s|
    ensures Bag(s[i := x], f) == Bag(Drop(s, i), f) + multiset{f(x)}
  {
    BagAt(s[i := x], f, i);
    assert Drop(s[i := x], i) == Drop(s, i);
  }

  /** A token is in the bag exactly when some position holds it. */
  lemma {:induction false} BagIn<T, K>(s: seq<T>, f: T -> K, t: K)
    ensures t in Bag(s, f) <==> exists i :: 0 <= i < |s| && f(s[i]) == t
  {
    if s != [] {
      BagIn(s[1..], f, t);
      if t in Bag(s[1..], f) {
        var i :| 0 <= i < |s[1..]| && f(s[1..][i]) == t;
        assert f(s[i + 1]) == t;
      }
      if i :| 0 <= i < |s| && f(s[i]) == t {
        assert i == 0 || f(s[1..][i - 1]) == t;
      }
    }
  }

  lemma {:induction false} BagSize<T, K>(s: seq<T>, f: T -> K)
    ensures |Bag(s, f)| == |s|
  {
    if s != [] {
      BagSize(s[1..], f);
    }
  }
}
