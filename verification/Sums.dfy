/**
 Sums over the rows of a table.
 */
module Sums {
  import opened Wrappers
  import opened Tables

  function Sum<T>(t: Table<T>, w: (nat, T) -> int): int
    decreases |t|
  {
    if t.Keys == {} then 0
    else
      var k := MaxOf(t.Keys);
      Drops(t, k);
      Sum(t - {k}, w) + w(k, t[k])
  }

  lemma Drops<T>(t: Table<T>, k: nat)
    requires k in t
    ensures |t - {k}| < |t|
  {
    assert (t - {k}).Keys == t.Keys - {k};
    assert |t.Keys - {k}| < |t.Keys|;
    assert |t| == |t.Keys| && |t - {k}| == |(t - {k}).Keys|;
  }

  /** The order of the rows does not matter. */
  lemma {:induction false} SumWithout<T>(t: Table<T>, w: (nat, T) -> int, k: nat)
    requires k in t
    ensures Sum(t, w) == Sum(t - {k}, w) + w(k, t[k])
    decreases |t|
  {
    var top := MaxOf(t.Keys);
    if k != top {
      Drops(t, top);
      Drops(t, k);
      SumWithout(t - {top}, w, k);
      SumWithout(t - {k}, w, top);
      assert t - {top} - {k} == t - {k} - {top};
    }
  }

  lemma {:induction false} SumSame<T>(t: Table<T>, v: (nat, T) -> int, w: (nat, T) -> int)
    requires forall k | k in t :: v(k, t[k]) == w(k, t[k])
    ensures Sum(t, v) == Sum(t, w)
    decreases |t|
  {
    if t.Keys != {} {
      var top := MaxOf(t.Keys);
      Drops(t, top);
      SumSame(t - {top}, v, w);
    }
  }

  /** Weights that differ at one row only. */
  lemma SumDiffers<T>(t: Table<T>, v: (nat, T) -> int, w: (nat, T) -> int, k: nat)
    requires k in t && forall j | j in t && j != k :: v(j, t[j]) == w(j, t[j])
    ensures Sum(t, w) == Sum(t, v) + w(k, t[k]) - v(k, t[k])
  {
    SumWithout(t, v, k);
    SumWithout(t, w, k);
    SumSame(t - {k}, v, w);
  }

  lemma {:induction false} SumAtLeast<T>(t: Table<T>, v: (nat, T) -> int, w: (nat, T) -> int)
    requires forall k | k in t :: v(k, t[k]) <= w(k, t[k])
    ensures Sum(t, v) <= Sum(t, w)
    decreases |t|
  {
    if t.Keys != {} {
      var top := MaxOf(t.Keys);
      Drops(t, top);
      SumAtLeast(t - {top}, v, w);
    }
  }

  lemma {:induction false} SumZero<T>(t: Table<T>, w: (nat, T) -> int)
    requires forall k | k in t :: w(k, t[k]) == 0
    ensures Sum(t, w) == 0
    decreases |t|
  {
    if t.Keys != {} {
      var top := MaxOf(t.Keys);
      Drops(t, top);
      SumZero(t - {top}, w);
    }
  }

  lemma {:induction false} SumPlus<T>(t: Table<T>, u: (nat, T) -> int, v: (nat, T) -> int, w: (nat, T) -> int)
    requires forall k | k in t :: u(k, t[k]) + v(k, t[k]) == w(k, t[k])
    ensures Sum(t, u) + Sum(t, v) == Sum(t, w)
    decreases |t|
  {
    if t.Keys != {} {
      var top := MaxOf(t.Keys);
      Drops(t, top);
      SumPlus(t - {top}, u, v, w);
    }
  }

  /** Rows that weigh nothing can be left out. */
  lemma {:induction false} SumSub<T>(t: Table<T>, t': Table<T>, v: (nat, T) -> int, w: (nat, T) -> int)
    requires forall k | k in t' :: k in t && w(k, t'[k]) == v(k, t[k])
    requires forall k | k in t && k !in t' :: v(k, t[k]) == 0
    ensures Sum(t', w) == Sum(t, v)
    decreases |t|
  {
    hide Sum;
    if t.Keys == {} {
      SumZero(t, v);
      SumZero(t', w);
    } else {
      var top := MaxOf(t.Keys);
      Drops(t, top);
      SumSub(t - {top}, t' - {top}, v, w);
      SumWithout(t, v, top);
      if top in t' {
        SumWithout(t', w, top);
      } else {
        assert t' - {top} == t';
      }
    }
  }

  /** A copied part of a table weighs what the original weighs. */
  lemma {:induction false} SumCopied<T(!new)>(s: Table<T>, p: T -> bool, d: Table<T>, d': Table<T>, tr: T -> T,
          m: map<nat, nat>, v: (nat, T) -> int, w: (nat, T) -> int)
    requires Copied(s, p, d, d', tr, m)
    requires forall k | k in m :: w(m[k], tr(s[k])) == v(k, s[k])
    requires forall k | k in s && k !in m :: v(k, s[k]) == 0
    requires forall k | k in d :: w(k, d[k]) == 0
    ensures Sum(d', w) == Sum(s, v)
    decreases |m|
  {
    if m.Keys == {} {
      CopiedNothing(s, p, d, d', tr, m);
      SumZero(s, v);
      SumZero(d', w);
    } else {
      var k :| k in m;
      CopiedAt(s, p, d, d', tr, m, k);
      CopiedMinus(s, p, d, d', tr, m, k);
      Drops(m, k);
      hide Copied, Sum;
      SumWithout(s, v, k);
      SumWithout(d', w, m[k]);
      SumCopied(s - {k}, p, d, d' - {m[k]}, tr, m - {k}, v, w);
    }
  }

  lemma CopiedNothing<T(!new)>(s: Table<T>, p: T -> bool, d: Table<T>, d': Table<T>, tr: T -> T, m: map<nat, nat>)
    requires Copied(s, p, d, d', tr, m) && m.Keys == {}
    ensures d' == d && forall k :: k !in m
  {
    assert forall k | k in d' :: k in d;
  }

  lemma CopiedAt<T(!new)>(s: Table<T>, p: T -> bool, d: Table<T>, d': Table<T>, tr: T -> T, m: map<nat, nat>, k: nat)
    requires Copied(s, p, d, d', tr, m) && k in m
    ensures k in s && m[k] in d' && d'[m[k]] == tr(s[k])
  {
  }

  lemma CopiedMinus<T(!new)>(s: Table<T>, p: T -> bool, d: Table<T>, d': Table<T>, tr: T -> T, m: map<nat, nat>, k: nat)
    requires Copied(s, p, d, d', tr, m) && k in m
    ensures Copied(s - {k}, p, d, d' - {m[k]}, tr, m - {k})
  {
    forall x | x in d' - {m[k]} && x !in d
      ensures exists i :: i in m - {k} && (m - {k})[i] == x
    {
      var i :| i in m && m[i] == x;
      assert i in m - {k};
    }
  }

  function SumIds<T>(ids: seq<nat>, t: Table<T>, w: (nat, T) -> int): int
    requires forall i | 0 <= i < |ids| :: ids[i] in t
  {
    if ids == [] then 0
    else SumIds(ids[..|ids| - 1], t, w) + w(ids[|ids| - 1], t[ids[|ids| - 1]])
  }

  /** A listing without repetition adds up to the table when what it leaves out weighs nothing. */
  lemma {:induction false} SumListed<T>(ids: seq<nat>, t: Table<T>, w: (nat, T) -> int)
    requires NoDup(ids) && forall i | 0 <= i < |ids| :: ids[i] in t
    requires forall k | k in t && k !in ids :: w(k, t[k]) == 0
    ensures SumIds(ids, t, w) == Sum(t, w)
    decreases |ids|
  {
    if ids == [] {
      SumZero(t, w);
    } else {
      var front, last := ids[..|ids| - 1], ids[|ids| - 1];
      forall i | 0 <= i < |front|
        ensures front[i] in t - {last}
      {
        assert front[i] == ids[i];
      }
      SumWithout(t, w, last);
      assert forall k | k in ids :: k in front || k == last;
      SumListed(front, t - {last}, w);
      SumIdsSame(front, t - {last}, t, w);
    }
  }

  lemma {:induction false} SumIdsSame<T>(ids: seq<nat>, t: Table<T>, t': Table<T>, w: (nat, T) -> int)
    requires forall i | 0 <= i < |ids| :: ids[i] in t && ids[i] in t' && t[ids[i]] == t'[ids[i]]
    ensures SumIds(ids, t, w) == SumIds(ids, t', w)
  {
    if ids != [] {
      SumIdsSame(ids[..|ids| - 1], t, t', w);
    }
  }
}
