/** Counting the elements of a sequence that satisfy a predicate, and summing the values of a finite map. */
module Tallies {

  function Bit(b: bool): nat { if b then 1 else 0 }

  /** How many elements of `s` satisfy `f`. */
  function Tally<T>(s: seq<T>, f: T -> bool): nat
  {
    if s == [] then 0 else Tally(s[..|s| - 1], f) + Bit(f(s[|s| - 1]))
  }

  lemma TallyPush<T>(s: seq<T>, x: T, f: T -> bool)
    ensures Tally(s + [x], f) == Tally(s, f) + Bit(f(x))
  {
    assert (s + [x])[..|s|] == s;
  }

  lemma {:induction false} TallySet<T>(s: seq<T>, i: nat, x: T, f: T -> bool)
    requires i < |s|
    ensures Tally(s[i := x], f) + Bit(f(s[i])) == Tally(s, f) + Bit(f(x))
    decreases |s|
  {
    var n := |s| - 1;
    if i == n {
      assert s[i := x][..n] == s[..n];
    } else {
      assert s[i := x][..n] == s[..n][i := x];
      TallySet(s[..n], i, x, f);
    }
  }

  /** A predicate that holds of an element exactly when one of two exclusive ones does. */
  lemma {:induction false} TallySplit<T>(s: seq<T>, f: T -> bool, g: T -> bool, h: T -> bool)
    requires forall x :: x in s ==> Bit(f(x)) == Bit(g(x)) + Bit(h(x))
    ensures Tally(s, f) == Tally(s, g) + Tally(s, h)
    decreases |s|
  {
    if s != [] {
      assert forall x :: x in s[..|s| - 1] ==> x in s;
      TallySplit(s[..|s| - 1], f, g, h);
    }
  }

  lemma {:induction false} TallyLe<T>(s: seq<T>, f: T -> bool, g: T -> bool)
    requires forall x :: x in s && f(x) ==> g(x)
    ensures Tally(s, f) <= Tally(s, g)
    decreases |s|
  {
    if s != [] {
      assert forall x :: x in s[..|s| - 1] ==> x in s;
      TallyLe(s[..|s| - 1], f, g);
    }
  }

  lemma TallySame<T>(s: seq<T>, f: T -> bool, g: T -> bool)
    requires forall x :: x in s ==> f(x) == g(x)
    ensures Tally(s, f) == Tally(s, g)
  {
    TallyLe(s, f, g);
    TallyLe(s, g, f);
  }

  lemma {:induction false} TallyZero<T>(s: seq<T>, f: T -> bool)
    ensures Tally(s, f) == 0 <==> forall x :: x in s ==> !f(x)
    decreases |s|
  {
    if s != [] {
      var t := s[..|s| - 1];
      assert s == t + [s[|s| - 1]];
      TallyZero(t, f);
    }
  }

  /** The elements of `s` that satisfy `f`, in order. */
  function Keep<T(!new)>(s: seq<T>, f: T -> bool): (r: seq<T>)
    ensures forall x :: x in r <==> x in s && f(x)
  {
    if s == [] then [] else
      var r := Keep(s[..|s| - 1], f);
      assert s == s[..|s| - 1] + [s[|s| - 1]];
      if f(s[|s| - 1]) then r + [s[|s| - 1]] else r
  }

  lemma {:induction false} TallyKeep<T(!new)>(s: seq<T>, f: T -> bool, g: T -> bool)
    ensures Tally(Keep(s, f), g) <= Tally(s, g)
    ensures (forall x :: x in s && g(x) ==> f(x)) ==> Tally(Keep(s, f), g) == Tally(s, g)
    ensures (forall x :: x in s && g(x) ==> !f(x)) ==> Tally(Keep(s, f), g) == 0
    decreases |s|
  {
    if s != [] {
      var t := s[..|s| - 1];
      assert forall x :: x in t ==> x in s;
      TallyKeep(t, f, g);
      TallyPush(Keep(t, f), s[|s| - 1], g);
    }
  }

  /** The sum of the values of `m`, whatever order its keys are visited in (see `SumRemove`). */
  ghost function Sum<K(!new)>(m: map<K, int>): int
    decreases |m|
  {
    if m == map[] then 0 else
      var k :| k in m;
      assert (m - {k}).Keys == m.Keys - {k};
      m[k] + Sum(m - {k})
  }

  lemma {:induction false} SumRemove<K(!new)>(m: map<K, int>, k: K)
    requires k in m
    ensures Sum(m) == m[k] + Sum(m - {k})
    decreases |m|
  {
    var j :| j in m && Sum(m) == m[j] + Sum(m - {j});
    if j != k {
      assert (m - {j}).Keys == m.Keys - {j};
      assert (m - {k}).Keys == m.Keys - {k};
      SumRemove(m - {j}, k);
      SumRemove(m - {k}, j);
      assert m - {j} - {k} == m - {k} - {j};
    }
  }

  lemma {:induction false} SumLe<K(!new)>(m: map<K, int>, n: map<K, int>)
    requires m.Keys == n.Keys
    requires forall k :: k in m ==> m[k] <= n[k]
    ensures Sum(m) <= Sum(n)
    ensures Sum(m) == Sum(n) ==> m == n
    decreases |m|
  {
    if m != map[] {
      var k :| k in m;
      assert (m - {k}).Keys == m.Keys - {k} == (n - {k}).Keys;
      SumLe(m - {k}, n - {k});
      SumRemove(m, k);
      SumRemove(n, k);
      if Sum(m) == Sum(n) {
        assert m[k] == n[k] && m - {k} == n - {k};
        assert forall j :: j in m && j != k ==> m[j] == (m - {k})[j] == (n - {k})[j] == n[j];
      }
    } else {
      assert n == map[];
    }
  }

  lemma SumChange<K(!new)>(m: map<K, int>, k: K, v: int)
    requires k in m
    ensures Sum(m[k := v]) == Sum(m) - m[k] + v
  {
    SumRemove(m, k);
    SumRemove(m[k := v], k);
    assert m[k := v] - {k} == m - {k};
  }

  lemma {:induction false} SumZero<K(!new)>(m: map<K, int>)
    requires forall k :: k in m ==> m[k] == 0
    ensures Sum(m) == 0
    decreases |m|
  {
    if m != map[] {
      var k :| k in m;
      assert (m - {k}).Keys == m.Keys - {k};
      SumRemove(m, k);
      SumZero(m - {k});
    }
  }

  /** Tallies by key add up to the tally of the elements whose key is listed. */
  lemma {:induction false} SumTallies<T, K(!new)>(s: seq<T>, keys: set<K>, on: T -> bool, key: T -> K, m: map<K, int>)
    requires m.Keys == keys
    requires forall k :: k in keys ==> m[k] == Tally(s, HasKey(on, key, k))
    ensures Sum(m) == Tally(s, KeyIn(on, key, keys))
    decreases |s|
  {
    if s == [] {
      SumZero(m);
    } else {
      var t, x := s[..|s| - 1], s[|s| - 1];
      var n := map k | k in keys :: Tally(t, HasKey(on, key, k)) as int;
      SumTallies(t, keys, on, key, n);
      if on(x) && key(x) in keys {
        assert m == n[key(x) := n[key(x)] + 1];
        SumChange(n, key(x), n[key(x)] + 1);
      } else {
        assert m == n;
      }
    }
  }

  function HasKey<T, K(==)>(on: T -> bool, key: T -> K, k: K): T -> bool { x => on(x) && key(x) == k }

  function KeyIn<T, K(==)>(on: T -> bool, key: T -> K, keys: set<K>): T -> bool { x => on(x) && key(x) in keys }

  /** The loop that adds up a result's counts, in an arbitrary key order. */
  method Total<K(==, !new)>(m: map<K, int>) returns (total: int)
    ensures total == Sum(m)
  {
    total := 0;
    var rest := m;
    while rest != map[]
      invariant total + Sum(rest) == Sum(m)
      decreases |rest|
    {
      var k :| k in rest;
      SumRemove(rest, k);
      assert (rest - {k}).Keys == rest.Keys - {k};
      total := total + rest[k];
      rest := rest - {k};
    }
  }

  /** The loop that copies every entry of `data`, converted, over `start`, in an arbitrary key order. */
  method Overlay<K(==, !new), V, W>(start: map<K, W>, data: map<K, V>, convert: V -> W) returns (r: map<K, W>)
    ensures r == start + map k | k in data :: convert(data[k])
  {
    r := start;
    var rest := data.Keys;
    while rest != {}
      invariant rest <= data.Keys && r.Keys == start.Keys + (data.Keys - rest)
      invariant forall k :: k in data && k !in rest ==> r[k] == convert(data[k])
      invariant forall k :: k in start && (k !in data || k in rest) ==> r[k] == start[k]
      decreases |rest|
    {
      var k :| k in rest;
      r := r[k := convert(data[k])];
      rest := rest - {k};
    }
  }
}
