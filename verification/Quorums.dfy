/** Node sets and the counting arguments every layer of the stack rests on. */
module Quorums {

  datatype Option<+T> = None | Some(value: T)

  /** A network of `n` nodes with distinct ids, of which those in `byz` need not follow the code. */
  datatype Config = Config(n: nat, t: nat, ids: set<int>, byz: set<int>) {

    predicate Valid() {
      && n > 3 * t
      && |ids| == n
      && byz <= ids
      && |byz| <= t
    }

    function Honest(): set<int> {
      ids - byz
    }
  }

  lemma {:induction false} SubsetCount<T>(a: set<T>, b: set<T>)
    requires a <= b
    ensures |a| <= |b|
  {
    assert b == a + (b - a);
  }

  /** A subset as large as its superset is the superset. */
  lemma {:induction false} FullSubset<T>(a: set<T>, b: set<T>)
    requires a <= b && |a| >= |b|
    ensures a == b
  {
    assert b == a + (b - a);
    assert |b - a| == 0;
  }

  /** Two subsets of `all` share at least `|a| + |b| - |all|` members. */
  lemma {:induction false} Overlap<T>(all: set<T>, a: set<T>, b: set<T>)
    requires a <= all && b <= all
    ensures |a * b| >= |a| + |b| - |all|
  {
    SubsetCount(a + b, all);
    assert |a + b| == |a| + |b| - |a * b|;
  }

  lemma Pick<T>(s: set<T>) returns (x: T)
    requires s != {}
    ensures x in s
  {
    x :| x in s;
  }

  lemma Outside<T>(a: set<T>, b: set<T>) returns (x: T)
    requires !(a <= b)
    ensures x in a && x !in b
  {
    x :| x in a && x !in b;
  }

  /** A set larger than `bad` has a member outside it. */
  lemma {:induction false} MemberOutside<T>(a: set<T>, bad: set<T>) returns (x: T)
    requires |a| > |bad|
    ensures x in a && x !in bad
  {
    if a <= bad {
      SubsetCount(a, bad);
      assert false;
    }
    x :| x in a && x !in bad;
  }

  /** Removing the nodes of `b` costs at most `|b|` members. */
  lemma {:induction false} DifferenceCount<T>(a: set<T>, b: set<T>)
    ensures |a - b| >= |a| - |b|
  {
    assert a == (a - b) + (a * b);
    SubsetCount(a * b, b);
  }

  lemma {:induction false} HonestCount(c: Config)
    requires c.Valid()
    ensures |c.Honest()| >= c.n - c.t
  {
    DifferenceCount(c.ids, c.byz);
  }

  /** Two quorums of `n - t` nodes share a node that follows the code. */
  lemma {:induction false} HonestInBoth(c: Config, a: set<int>, b: set<int>) returns (x: int)
    requires c.Valid()
    requires a <= c.ids && b <= c.ids
    requires |a| >= c.n - c.t && |b| >= c.n - c.t
    ensures x in a && x in b && x in c.Honest()
  {
    Overlap(c.ids, a, b);
    x := MemberOutside(a * b, c.byz);
  }

  /** A set of any size between two nested sets. */
  lemma {:induction false} TakeBetween(lo: set<int>, hi: set<int>, k: nat) returns (s: set<int>)
    requires lo <= hi && |lo| <= k <= |hi|
    ensures lo <= s <= hi && |s| == k
    decreases k - |lo|
  {
    if |lo| == k {
      s := lo;
    } else {
      DifferenceCount(hi, lo);
      var x := Pick(hi - lo);
      s := TakeBetween(lo + {x}, hi, k);
    }
  }

  /** The later of two updates counts. */
  lemma Twice<T>(m: map<int, T>, i: int, x: T, y: T)
    ensures m[i := x][i := y] == m[i := y]
  {
  }
}
