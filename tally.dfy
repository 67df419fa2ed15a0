/**
 * Counting repeat labels: `collections.Counter`, the two mode helpers
 * `custom_mode` and `modes` of MIRUReader.py, and the `min` builtin
 * (plain and with a key) that the tie-break uses.
 */
module Tally {
  import opened Wrappers

  /** `xs.count(v)`, and `Counter(xs)[v]`. */
  function Count(xs: seq<int>, v: int): nat {
    multiset(xs)[v]
  }

  predicate NoDuplicates(s: seq<int>) {
    forall i, j :: 0 <= i < j < |s| ==> s[i] != s[j]
  }

  /** Position of the first occurrence of `v`. */
  function FirstIndex(xs: seq<int>, v: int): (k: nat)
    requires v in xs
    ensures k < |xs| && xs[k] == v && v !in xs[..k]
  {
    if xs[0] == v then 0
    else
      var k := FirstIndex(xs[1..], v) + 1;
      assert xs[..k] == [xs[0]] + xs[1..][..k - 1];
      k
  }

  /** Values of `d` appear in `d` in the order of their first appearance in `xs`. */
  predicate FirstAppearanceOrder(d: seq<int>, xs: seq<int>) {
    && (forall v :: v in d ==> v in xs)
    && (forall i, j :: 0 <= i < j < |d| ==> FirstIndex(xs, d[i]) < FirstIndex(xs, d[j]))
  }

  /** The keys of `Counter(xs)`: each value of `xs` once, in first-appearance order. */
  function Distinct(xs: seq<int>): (d: seq<int>)
    ensures forall v :: v in d <==> v in xs
    ensures NoDuplicates(d)
    decreases |xs|
  {
    if xs == [] then []
    else
      var p := Distinct(xs[..|xs| - 1]);
      var v := xs[|xs| - 1];
      assert xs == xs[..|xs| - 1] + [v];
      if v in p then p else p + [v]
  }

  /** The first occurrence of a value in a prefix is its first occurrence in the whole. */
  lemma {:induction false} FirstIndexPrefix(xs: seq<int>, n: nat, v: int)
    requires n <= |xs| && v in xs[..n]
    ensures FirstIndex(xs, v) == FirstIndex(xs[..n], v)
  {
    var k := FirstIndex(xs[..n], v);
    assert xs[k] == v;
    assert xs[..k] == xs[..n][..k];
  }

  /** `Counter(xs)` lists its keys in the order they first appear in `xs`. */
  lemma {:induction false} DistinctOrder(xs: seq<int>)
    ensures FirstAppearanceOrder(Distinct(xs), xs)
    decreases |xs|
  {
    if xs != [] {
      var n := |xs| - 1;
      var pre := xs[..n];
      var v := xs[n];
      var p := Distinct(pre);
      DistinctOrder(pre);
      forall u | u in p ensures FirstIndex(xs, u) == FirstIndex(pre, u) {
        FirstIndexPrefix(xs, n, u);
      }
      if v !in p {
        assert v !in pre;
        assert xs[..n] == pre;
        assert FirstIndex(xs, v) == n;
        var d := p + [v];
        forall i, j | 0 <= i < j < |d| ensures FirstIndex(xs, d[i]) < FirstIndex(xs, d[j]) {
          if j < |p| {
            assert d[i] == p[i] && d[j] == p[j];
          } else {
            assert d[i] == p[i];
            assert FirstIndex(xs, p[i]) < |pre|;
          }
        }
      }
    }
  }

  /** `max(counts.values())` over the keys `keys`. */
  function MaxCountOver(keys: seq<int>, xs: seq<int>): (m: nat)
    ensures forall v :: v in keys ==> Count(xs, v) <= m
    ensures keys != [] ==> exists v :: v in keys && Count(xs, v) == m
    decreases |keys|
  {
    if keys == [] then 0
    else
      var p := MaxCountOver(keys[..|keys| - 1], xs);
      var last := keys[|keys| - 1];
      assert keys == keys[..|keys| - 1] + [last];
      if Count(xs, last) > p then Count(xs, last) else p
  }

  /** `max(Counter(xs).values())`: the highest number of occurrences. */
  function MaxCount(xs: seq<int>): nat {
    MaxCountOver(Distinct(xs), xs)
  }

  /** The keys among `keys` whose count is `c`, in the order of `keys`. */
  function WithCount(keys: seq<int>, xs: seq<int>, c: nat): (r: seq<int>)
    ensures forall v :: v in r <==> v in keys && Count(xs, v) == c
    decreases |keys|
  {
    if keys == [] then []
    else
      var last := keys[|keys| - 1];
      assert keys == keys[..|keys| - 1] + [last];
      WithCount(keys[..|keys| - 1], xs, c) + (if Count(xs, last) == c then [last] else [])
  }

  /** `modes(List)`: `[key for key, value in Counter(List).items() if value == max_count]`. */
  function Modes(xs: seq<int>): seq<int> {
    WithCount(Distinct(xs), xs, MaxCount(xs))
  }

  /**
   * `custom_mode(List)`: the single most common value. On a non-empty list
   * `None` stands for the `StatisticsError` it raises on a tie; on an empty
   * list, where `max()` raises `ValueError`, the model gives `None` too.
   */
  function CustomMode(xs: seq<int>): Option<int> {
    var ms := Modes(xs);
    if |ms| == 1 then Some(ms[0]) else None
  }

  /** Filtering keeps the order and the distinctness of what it filters. */
  lemma {:induction false} WithCountKeepsOrder(keys: seq<int>, xs: seq<int>, c: nat)
    requires NoDuplicates(keys) && FirstAppearanceOrder(keys, xs)
    ensures NoDuplicates(WithCount(keys, xs, c)) && FirstAppearanceOrder(WithCount(keys, xs, c), xs)
    decreases |keys|
  {
    if keys != [] {
      var pre := keys[..|keys| - 1];
      var last := keys[|keys| - 1];
      OrderedPrefix(keys, xs);
      WithCountKeepsOrder(pre, xs, c);
      var w := WithCount(pre, xs, c);
      if Count(xs, last) == c {
        forall v | v in w ensures v != last && FirstIndex(xs, v) < FirstIndex(xs, last) {
          var k :| 0 <= k < |pre| && pre[k] == v;
          assert keys[k] == v;
        }
        OrderedAppend(w, last, xs);
      }
    }
  }

  /** Dropping the last value keeps the order and the distinctness. */
  lemma OrderedPrefix(keys: seq<int>, xs: seq<int>)
    requires keys != [] && NoDuplicates(keys) && FirstAppearanceOrder(keys, xs)
    ensures NoDuplicates(keys[..|keys| - 1]) && FirstAppearanceOrder(keys[..|keys| - 1], xs)
  {
    var pre := keys[..|keys| - 1];
    forall i, j | 0 <= i < j < |pre| ensures pre[i] != pre[j] && FirstIndex(xs, pre[i]) < FirstIndex(xs, pre[j]) {
      assert pre[i] == keys[i] && pre[j] == keys[j];
    }
  }

  /** A value first seen after all of `w` can follow `w`. */
  lemma OrderedAppend(w: seq<int>, last: int, xs: seq<int>)
    requires NoDuplicates(w) && FirstAppearanceOrder(w, xs) && last in xs
    requires forall v :: v in w ==> v != last && FirstIndex(xs, v) < FirstIndex(xs, last)
    ensures NoDuplicates(w + [last]) && FirstAppearanceOrder(w + [last], xs)
  {
    var r := w + [last];
    forall i, j | 0 <= i < j < |r| ensures r[i] != r[j] && FirstIndex(xs, r[i]) < FirstIndex(xs, r[j]) {
      assert r[i] == w[i] && w[i] in w;
    }
  }

  /** No key has the count: nothing is kept. */
  lemma {:induction false} WithCountNone(keys: seq<int>, xs: seq<int>, c: nat)
    requires forall v :: v in keys ==> Count(xs, v) != c
    ensures WithCount(keys, xs, c) == []
    decreases |keys|
  {
    if keys != [] {
      WithCountNone(keys[..|keys| - 1], xs, c);
    }
  }

  /** Exactly one key has the count: it alone is kept. */
  lemma {:induction false} WithCountSingle(keys: seq<int>, xs: seq<int>, c: nat, m: int)
    requires NoDuplicates(keys) && m in keys && Count(xs, m) == c
    requires forall v :: v in keys && Count(xs, v) == c ==> v == m
    ensures WithCount(keys, xs, c) == [m]
    decreases |keys|
  {
    var pre := keys[..|keys| - 1];
    var last := keys[|keys| - 1];
    assert keys == pre + [last];
    if last == m {
      assert m !in pre;
      WithCountNone(pre, xs, c);
    } else {
      WithCountSingle(pre, xs, c, m);
    }
  }

  /**
   * `modes` returns exactly the values whose count is the maximum, each
   * once, in first-appearance order, and at least one for a non-empty list.
   */
  lemma ModesSpec(xs: seq<int>)
    ensures forall v :: v in Modes(xs) <==> v in xs && Count(xs, v) == MaxCount(xs)
    ensures forall v :: v in xs ==> Count(xs, v) <= MaxCount(xs)
    ensures NoDuplicates(Modes(xs)) && FirstAppearanceOrder(Modes(xs), xs)
    ensures xs != [] <==> Modes(xs) != []
  {
    DistinctOrder(xs);
    WithCountKeepsOrder(Distinct(xs), xs, MaxCount(xs));
    if xs != [] {
      assert xs[0] in Distinct(xs);
      var v :| v in Distinct(xs) && Count(xs, v) == MaxCount(xs);
      assert v in Modes(xs);
    }
  }

  /** `m` occurs strictly more often than every other value. */
  predicate StrictMode(xs: seq<int>, m: int) {
    m in xs && forall v :: v in xs && v != m ==> Count(xs, v) < Count(xs, m)
  }

  /**
   * `custom_mode` returns `m` exactly when `m` occurs strictly more often
   * than every other value of the list.
   */
  lemma CustomModeUnique(xs: seq<int>, m: int)
    ensures CustomMode(xs) == Some(m) <==> StrictMode(xs, m)
  {
    ModesSpec(xs);
    var ms := Modes(xs);
    if m in xs && forall v :: v in xs && v != m ==> Count(xs, v) < Count(xs, m) {
      var w :| w in Distinct(xs) && Count(xs, w) == MaxCount(xs);
      assert w == m;
      assert m in ms;
      WithCountSingle(Distinct(xs), xs, MaxCount(xs), m);
    }
    if CustomMode(xs) == Some(m) {
      assert ms[0] == m && m in ms;
      forall v | v in xs && v != m ensures Count(xs, v) < Count(xs, m) {
        assert v !in ms;
      }
    }
  }

  /**
   * `custom_mode` raises on a non-empty list exactly when two different
   * values share the maximum count.
   */
  lemma CustomModeRaises(xs: seq<int>)
    requires xs != []
    ensures CustomMode(xs).None? <==>
      exists u, v :: u in xs && v in xs && u != v && Count(xs, u) == MaxCount(xs) && Count(xs, v) == MaxCount(xs)
  {
    ModesSpec(xs);
    var ms := Modes(xs);
    var c := MaxCount(xs);
    if |ms| != 1 {
      assert |ms| >= 2;
      var u, v := ms[0], ms[1];
      assert u in ms && v in ms && u != v;
      assert u in xs && v in xs && Count(xs, u) == c && Count(xs, v) == c;
    } else {
      forall u, v | u in xs && v in xs && Count(xs, u) == c && Count(xs, v) == c ensures u == v {
        assert u in ms && v in ms;
        assert u == ms[0] && v == ms[0];
      }
    }
  }

  /** `min(values)`. */
  function Min(s: seq<int>): (m: int)
    requires s != []
    ensures m in s && forall x :: x in s ==> m <= x
    decreases |s|
  {
    if |s| == 1 then s[0]
    else
      var p := Min(s[..|s| - 1]);
      assert s == s[..|s| - 1] + [s[|s| - 1]];
      if s[|s| - 1] < p then s[|s| - 1] else p
  }

  /**
   * `min(range(len(s)), key=s.__getitem__)`: the position of a least value,
   * the first one when several are least.
   */
  function ArgMin(s: seq<int>): (k: nat)
    requires s != []
    ensures k < |s|
    ensures forall j :: 0 <= j < |s| ==> s[k] <= s[j]
    ensures forall j :: 0 <= j < k ==> s[j] > s[k]
    decreases |s|
  {
    if |s| == 1 then 0
    else
      var p := ArgMin(s[..|s| - 1]);
      if s[|s| - 1] < s[p] then |s| - 1 else p
  }
}
