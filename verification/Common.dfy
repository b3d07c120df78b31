/** Small datatypes and sequence facts shared by the model. */
module Common {

  datatype Option<+T> = None | Some(value: T)

  datatype Result<+T, +E> = Ok(value: T) | Err(error: E)

  lemma ConcatAssoc<T>(a: seq<T>, b: seq<T>, c: seq<T>)
    ensures a + (b + c) == (a + b) + c
  {}

  lemma TakeSplit<T>(s: seq<T>, n: nat, m: nat)
    requires n + m <= |s|
    ensures s[..n + m] == s[..n] + s[n..][..m]
  {}

  /** Distinct entries, by position. */
  ghost predicate Distinct<T>(s: seq<T>) {
    forall i, j :: 0 <= i < j < |s| ==> s[i] != s[j]
  }

  /** A sequence of `n` indices below `n` that lists each of them once. */
  ghost predicate IsPermutation(p: seq<nat>, n: nat) {
    && |p| == n
    && (forall i :: 0 <= i < n ==> p[i] < n)
    && Distinct(p)
    && (forall j :: 0 <= j < n ==> j in p)
  }

  /** Pigeonhole: `n` distinct indices below `n` leave none out. */
  lemma {:induction false} DistinctBelowIsPermutation(p: seq<nat>, n: nat)
    requires |p| == n
    requires forall i :: 0 <= i < n ==> p[i] < n
    requires Distinct(p)
    ensures IsPermutation(p, n)
  {
    var elements := set i | 0 <= i < |p| :: p[i];
    DistinctCardinality(p, elements);
    BelowContains(n);
    assert elements <= Below(n);
    SubsetSameSize(elements, Below(n));
    forall j | 0 <= j < n ensures j in p {
      assert j in Below(n);
      assert j in elements;
    }
  }

  lemma {:induction false} DistinctCardinality<T>(p: seq<T>, elements: set<T>)
    requires Distinct(p)
    requires elements == set i | 0 <= i < |p| :: p[i]
    ensures |elements| == |p|
  {
    if p != [] {
      var init := p[..|p| - 1];
      var last := p[|p| - 1];
      var fewer := set i | 0 <= i < |init| :: init[i];
      DistinctCardinality(init, fewer);
      forall x | x in elements ensures x in fewer + {last} {
        var i :| 0 <= i < |p| && p[i] == x;
        if i < |init| { assert init[i] == x; }
      }
      forall x | x in fewer ensures x in elements && x != last {
        var i :| 0 <= i < |init| && init[i] == x;
        assert p[i] == x;
      }
      assert elements == fewer + {last};
    }
  }

  function Below(n: nat): set<nat> {
    if n == 0 then {} else Below(n - 1) + {n - 1}
  }

  lemma {:induction false} BelowContains(n: nat)
    ensures forall j: nat :: j in Below(n) <==> j < n
    ensures |Below(n)| == n
  {
    if n > 0 {
      BelowContains(n - 1);
      var fewer := Below(n - 1);
      assert n - 1 !in fewer && Below(n) == fewer + {n - 1};
    }
  }

  lemma SubsetSameSize<T>(a: set<T>, b: set<T>)
    requires a <= b && |a| == |b|
    ensures a == b
  {
    if x :| x in b && x !in a {
      SubsetSize(a, b - {x});
    }
  }

  lemma {:induction false} SubsetSize<T>(a: set<T>, b: set<T>)
    requires a <= b
    ensures |a| <= |b|
  {
    if a != {} {
      var x :| x in a;
      SubsetSize(a - {x}, b - {x});
    }
  }

  // ----- bounded deques ------------------------------------------------------------------------

  /** `deque(maxlen).append`. */
  function Push<T>(d: seq<T>, x: T, maxlen: nat): seq<T> {
    if |d| < maxlen then d + [x]
    else if maxlen == 0 then []
    else d[|d| - maxlen + 1..] + [x]
  }

  /** The last `n` entries, or all of them if there are fewer. */
  function Last<T>(s: seq<T>, n: nat): seq<T> {
    if |s| <= n then s else s[|s| - n..]
  }

  /** A bounded deque holds the last entries of everything appended to it. */
  lemma PushKeepsLast<T>(all: seq<T>, x: T, maxlen: nat)
    ensures Push(Last(all, maxlen), x, maxlen) == Last(all + [x], maxlen)
  {}

  /** The sequence under a key, empty if there is none. */
  function Get<K, T>(m: map<K, seq<T>>, key: K): seq<T> {
    if key in m then m[key] else []
  }
}
