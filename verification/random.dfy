/** The two `random` functions the workflows call, with the generator's raw draws as
    parameters. `randbelow(n)` is the generator's uniform pick in `[0, n)`; a draw
    sequence records its successive answers. */
module PyRandom {
  import opened Common

  /** Draws that `random.sample(population, |draws|)` can consume on a population of
      size n: the i-th one answers `randbelow(n - i)`. */
  predicate ValidDraws(n: nat, draws: seq<nat>) {
    |draws| <= n && forall i | 0 <= i < |draws| :: draws[i] < n - i
  }

  /** The pool with position j filled by its last element and the last slot dropped. */
  function Remove<T>(pool: seq<T>, j: nat): (rest: seq<T>)
    requires j < |pool|
    ensures |rest| == |pool| - 1
  {
    pool[j := pool[|pool| - 1]][..|pool| - 1]
  }

  /** Removing a position takes exactly one copy of that element out of the pool. */
  lemma RemoveTakesOne<T>(pool: seq<T>, j: nat)
    requires j < |pool|
    ensures multiset(Remove(pool, j)) + multiset{pool[j]} == multiset(pool)
  {
    var last := |pool| - 1;
    var u := pool[j := pool[last]];
    assert u == u[..last] + [pool[last]];
    assert pool == pool[..last] + [pool[last]];
    if j < last {
      assert u[..last] == pool[..last][j := pool[last]];
    }
  }

  /** `random.sample(pool, k)` as CPython computes it for a small population: the i-th
      pick takes `pool[j]` for the i-th draw j and refills that slot with the last
      element still in play. The result draws from the pool without replacement. */
  function Sample<T>(pool: seq<T>, draws: seq<nat>): (r: seq<T>)
    requires ValidDraws(|pool|, draws)
    ensures |r| == |draws|
    ensures multiset(r) <= multiset(pool)
    decreases |draws|
  {
    if draws == [] then []
    else
      var j := draws[0];
      var rest := Remove(pool, j);
      assert ValidDraws(|rest|, draws[1..]) by {
        forall i | 0 <= i < |draws[1..]| ensures draws[1..][i] < |rest| - i {
          assert draws[1..][i] == draws[i + 1];
        }
      }
      RemoveTakesOne(pool, j);
      [pool[j]] + Sample(rest, draws[1..])
  }

  ghost predicate Distinct<T>(s: seq<T>) {
    forall i, j | 0 <= i < j < |s| :: s[i] != s[j]
  }

  lemma {:induction false} DistinctCountsOne<T>(s: seq<T>, x: T)
    requires Distinct(s)
    ensures multiset(s)[x] <= 1
    decreases |s|
  {
    if s != [] {
      var init := s[..|s| - 1];
      assert Distinct(init);
      DistinctCountsOne(init, x);
      assert s == init + [s[|s| - 1]];
      if x == s[|s| - 1] {
        assert x !in init by {
          forall k | 0 <= k < |init| ensures init[k] != x {
            assert s[k] != s[|s| - 1];
          }
        }
      }
    }
  }

  lemma RepeatCountsTwo<T>(s: seq<T>, i: nat, j: nat)
    requires i < j < |s| && s[i] == s[j]
    ensures multiset(s)[s[i]] >= 2
  {
    assert s == s[..i] + [s[i]] + s[i + 1..j] + [s[j]] + s[j + 1..];
  }

  /** A sub-multiset of a duplicate-free sequence is itself duplicate-free. */
  lemma SubMultisetDistinct<T>(r: seq<T>, pool: seq<T>)
    requires multiset(r) <= multiset(pool) && Distinct(pool)
    ensures Distinct(r)
  {
    forall i, j | 0 <= i < j < |r| ensures r[i] != r[j] {
      if r[i] == r[j] {
        RepeatCountsTwo(r, i, j);
        DistinctCountsOne(pool, r[i]);
        assert false;
      }
    }
  }

  /** A duplicate-free sequence of pool elements is a sub-multiset of the pool. */
  lemma DistinctSubMultiset<T>(want: seq<T>, pool: seq<T>)
    requires Distinct(want) && forall i | 0 <= i < |want| :: want[i] in pool
    ensures multiset(want) <= multiset(pool)
  {
    forall y ensures multiset(want)[y] <= multiset(pool)[y] {
      DistinctCountsOne(want, y);
      if y in multiset(want) {
        var i :| 0 <= i < |want| && want[i] == y;
        assert y in multiset(pool);
      }
    }
  }

  /** Taking the first wanted element out of the pool leaves room for the rest. */
  lemma RestFits<T>(pool: seq<T>, want: seq<T>, j: nat)
    requires multiset(want) <= multiset(pool) && want != []
    requires j < |pool| && pool[j] == want[0]
    ensures multiset(want[1..]) <= multiset(Remove(pool, j))
  {
    RemoveTakesOne(pool, j);
    assert want == [want[0]] + want[1..];
    assert multiset(want) == multiset{want[0]} + multiset(want[1..]);
    forall y ensures multiset(want[1..])[y] <= multiset(Remove(pool, j))[y] {
      assert multiset(want)[y] <= multiset(pool)[y];
    }
  }

  /** The first draw picks its element; the rest sample what is left. */
  lemma SampleStep<T>(pool: seq<T>, j: nat, tail: seq<nat>)
    requires j < |pool| && ValidDraws(|pool| - 1, tail)
    ensures ValidDraws(|pool|, [j] + tail)
    ensures Sample(pool, [j] + tail) == [pool[j]] + Sample(Remove(pool, j), tail)
  {
    var d := [j] + tail;
    assert d[1..] == tail;
    forall i | 0 <= i < |d| ensures d[i] < |pool| - i {
      if i > 0 {
        assert d[i] == tail[i - 1];
      }
    }
  }

  /** Every arrangement the pool can supply is some draw sequence's sample: the
      draws below produce `want` exactly. */
  lemma {:induction false} SampleReaches<T>(pool: seq<T>, want: seq<T>) returns (draws: seq<nat>)
    requires multiset(want) <= multiset(pool)
    ensures ValidDraws(|pool|, draws) && |draws| == |want|
    ensures Sample(pool, draws) == want
    decreases |want|
  {
    if want == [] {
      return [];
    }
    assert want[0] in multiset(pool) by {
      assert want[0] in multiset(want);
    }
    var j := IndexOf(pool, want[0]);
    RestFits(pool, want, j);
    var tail := SampleReaches(Remove(pool, j), want[1..]);
    SampleStep(pool, j, tail);
    draws := [j] + tail;
    assert want == [want[0]] + want[1..];
  }

  /** In particular every duplicate-free arrangement of pool elements is reachable. */
  lemma SampleReachesDistinct<T>(pool: seq<T>, want: seq<T>) returns (draws: seq<nat>)
    requires Distinct(want) && forall i | 0 <= i < |want| :: want[i] in pool
    ensures ValidDraws(|pool|, draws) && |draws| == |want|
    ensures Sample(pool, draws) == want
  {
    DistinctSubMultiset(want, pool);
    draws := SampleReaches(pool, want);
  }

  /** `random.choice(options)`: the option at the drawn position. */
  function Choice<T>(options: seq<T>, draw: nat): (r: T)
    requires draw < |options|
    ensures r in options
  {
    options[draw]
  }
}
