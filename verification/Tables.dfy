/**
 SQL tables with an integer primary key, as maps from row id to row, and the
 statements the program issues against them.
 */
module Tables {
  import opened Wrappers

  type Table<T> = map<nat, T>

  lemma {:induction false} MaxExists(s: set<nat>)
    requires s != {}
    ensures exists m :: m in s && forall k | k in s :: k <= m
  {
    var x :| x in s;
    if s != {x} {
      MaxExists(s - {x});
      var m :| m in s - {x} && forall k | k in s - {x} :: k <= m;
      var top := if x > m then x else m;
      assert top in s && forall k | k in s :: k == x || k in s - {x};
    }
  }

  function MaxOf(s: set<nat>): (m: nat)
    requires s != {}
    ensures m in s && forall k | k in s :: k <= m
  {
    MaxExists(s);
    var m :| m in s && forall k | k in s :: k <= m;
    m
  }

  lemma {:induction false} MinExists(s: set<nat>, x: nat)
    requires x in s
    ensures exists m :: m in s && forall k | k in s :: m <= k
    decreases x
  {
    if y :| y in s && y < x {
      MinExists(s, y);
    } else {
      assert forall k | k in s :: x <= k;
    }
  }

  function MinOf(s: set<nat>): (m: nat)
    requires s != {}
    ensures m in s && forall k | k in s :: m <= k
  {
    var x :| x in s;
    MinExists(s, x);
    var m :| m in s && forall k | k in s :: m <= k;
    m
  }

  /** COALESCE(MAX + 1, 0). */
  function NextAbove(s: set<nat>): (next: nat)
    ensures forall k | k in s :: k < next
    ensures next > 0 ==> next - 1 in s
  {
    if s == {} then 0 else MaxOf(s) + 1
  }

  /** The id SQLite gives the next row: one above the largest id now in the table. */
  function NextId<T>(t: Table<T>): (id: nat)
    ensures id >= 1 && forall k | k in t :: k < id
  {
    if t.Keys == {} then 1 else MaxOf(t.Keys) + 1
  }

  /** The table after inserting `rows` one by one. */
  function Append<T>(t: Table<T>, rows: seq<T>): (r: Table<T>)
    ensures forall k :: k in r <==> k in t || NextId(t) <= k < NextId(t) + |rows|
    ensures forall k | k in t :: r[k] == t[k]
    ensures forall i | 0 <= i < |rows| :: r[NextId(t) + i] == rows[i]
  {
    var first := NextId(t);
    map k | 0 <= k < first + |rows| && (k in t || first <= k) ::
      if k in t then t[k] else rows[k - first]
  }

  lemma NextIdAppend<T>(t: Table<T>, rows: seq<T>)
    ensures NextId(Append(t, rows)) == NextId(t) + |rows|
  {
    var r := Append(t, rows);
    if rows == [] {
      assert r == t;
    } else {
      assert NextId(t) + |rows| - 1 in r;
    }
  }

  lemma AppendOne<T>(t: Table<T>, row: T)
    ensures Append(t, [row]) == t[NextId(t) := row]
  {
  }

  lemma AppendAt<T>(t: Table<T>, rows: seq<T>, k: nat)
    requires k in Append(t, rows)
    ensures k in t ==> Append(t, rows)[k] == t[k]
    ensures k !in t ==> NextId(t) <= k < NextId(t) + |rows| && Append(t, rows)[k] == rows[k - NextId(t)]
  {
    if k !in t {
      assert Append(t, rows)[NextId(t) + (k - NextId(t))] == rows[k - NextId(t)];
    }
  }

  lemma AppendKeys<T>(t: Table<T>, rows: seq<T>, k: nat)
    ensures k in Append(t, rows) <==> k in t || NextId(t) <= k < NextId(t) + |rows|
  {
  }

  lemma AppendAppend<T(!new)>(t: Table<T>, a: seq<T>, b: seq<T>)
    ensures Append(Append(t, a), b) == Append(t, a + b)
  {
    NextIdAppend(t, a);
    hide *;
    var l, r := Append(Append(t, a), b), Append(t, a + b);
    forall k: nat
      ensures Same(l, r, k)
    {
      AppendAppendAt(t, a, b, k);
    }
    SameTables(l, r);
  }

  ghost predicate Same<T(!new)>(l: Table<T>, r: Table<T>, k: nat) {
    (k in l <==> k in r) && (k in l ==> l[k] == r[k])
  }

  lemma SameTables<T(!new)>(l: Table<T>, r: Table<T>)
    requires forall k: nat :: Same(l, r, k)
    ensures l == r
  {
    forall k: nat
      ensures k in l <==> k in r
      ensures k in l ==> l[k] == r[k]
    {
      assert Same(l, r, k);
    }
  }

  lemma AppendAppendAt<T(!new)>(t: Table<T>, a: seq<T>, b: seq<T>, k: nat)
    requires NextId(Append(t, a)) == NextId(t) + |a|
    ensures Same(Append(Append(t, a), b), Append(t, a + b), k)
  {
    hide Append, NextId;
    AppendKeys(t, a, k);
    AppendKeys(Append(t, a), b, k);
    AppendKeys(t, a + b, k);
    if k in Append(t, a + b) {
      AppendAt(Append(t, a), b, k);
      AppendAt(t, a + b, k);
      if k in Append(t, a) {
        AppendAt(t, a, k);
      }
    }
  }

  /** Rows were added, none changed. */
  ghost predicate Extends<T(!new)>(t: Table<T>, t': Table<T>) {
    forall k | k in t :: k in t' && t'[k] == t[k]
  }

  /** A UNIQUE constraint over the columns `key`. */
  ghost predicate Unique<T, K>(t: Table<T>, key: T -> K) {
    forall i, j | i in t && j in t && key(t[i]) == key(t[j]) :: i == j
  }

  /** INSERT under a UNIQUE constraint: refused exactly when a stored row has the same key. */
  method InsertUnique<T, K(==)>(t: Table<T>, key: T -> K, row: T) returns (ok: bool, t': Table<T>, id: nat)
    ensures ok <==> forall k | k in t :: key(t[k]) != key(row)
    ensures ok ==> t' == Append(t, [row]) && id == NextId(t)
    ensures ok && Unique(t, key) ==> Unique(t', key)
    ensures !ok ==> t' == t
  {
    id := NextId(t);
    if exists k :: k in t && key(t[k]) == key(row) {
      return false, t, id;
    }
    AppendOne(t, row);
    return true, t[id := row], id;
  }

  /** A listing of the keys of `t` that satisfy `p`, each once, in no particular order. */
  ghost predicate Lists<T>(ids: seq<nat>, t: Table<T>, p: T -> bool) {
    && NoDup(ids)
    && (forall i | 0 <= i < |ids| :: ids[i] in t && p(t[ids[i]]))
    && (forall k | k in t && p(t[k]) :: k in ids)
  }

  ghost predicate NoDup<T>(s: seq<T>) {
    forall i, j | 0 <= i < j < |s| :: s[i] != s[j]
  }

  lemma TwoApart(ids: seq<nat>, i: nat, j: nat)
    requires NoDup(ids) && i < j < |ids|
    ensures ids[i] != ids[j]
  {
  }

  lemma AtMostOne<T(!new)>(ids: seq<nat>, t: Table<T>, p: T -> bool)
    requires Lists(ids, t, p)
    requires forall i, j | i in t && j in t && p(t[i]) && p(t[j]) :: i == j
    ensures |ids| <= 1
  {
    if |ids| > 1 {
      TwoApart(ids, 0, 1);
    }
  }

  /** SELECT id ... WHERE p. */
  method Select<T>(t: Table<T>, p: T -> bool) returns (ids: seq<nat>)
    ensures Lists(ids, t, p)
  {
    var todo := set k | k in t && p(t[k]);
    ghost var all := todo;
    ids := [];
    while todo != {}
      invariant todo <= all && NoDup(ids)
      invariant forall k :: k in all <==> k in todo || k in ids
      invariant forall i | 0 <= i < |ids| :: ids[i] in all
      invariant forall k | k in ids :: k !in todo
      decreases |todo|
    {
      var k :| k in todo;
      todo := todo - {k};
      ids := ids + [k];
    }
  }

  // ---------------------------------------------------------------------
  // Id maps
  // ---------------------------------------------------------------------

  /** The hash map filled while the rows of `ids` are inserted from id `first` on. */
  function IdMap(ids: seq<nat>, first: nat): map<nat, nat> {
    if ids == [] then map[]
    else IdMap(ids[..|ids| - 1], first)[ids[|ids| - 1] := first + |ids| - 1]
  }

  lemma {:induction false} IdMapAt(ids: seq<nat>, first: nat)
    ensures forall k :: k in IdMap(ids, first) <==> k in ids
    ensures NoDup(ids) ==> forall i | 0 <= i < |ids| :: IdMap(ids, first)[ids[i]] == first + i
  {
    if ids != [] {
      var front := ids[..|ids| - 1];
      IdMapAt(front, first);
      assert ids == front + [ids[|ids| - 1]];
      if NoDup(ids) {
        forall i | 0 <= i < |ids|
          ensures IdMap(ids, first)[ids[i]] == first + i
        {
          if i < |ids| - 1 {
            assert front[i] == ids[i];
          }
        }
      }
    }
  }

  lemma IdMapSnoc(ids: seq<nat>, first: nat, id: nat)
    ensures IdMap(ids + [id], first) == IdMap(ids, first)[id := first + |ids|]
  {
    assert (ids + [id])[..|ids|] == ids;
  }

  /** A look-up of an optional reference; a missing key reads as NULL. */
  function Remap(m: map<nat, nat>, id: Option<nat>): Option<nat> {
    if id.Some? && id.value in m then Some(m[id.value]) else None
  }

  // ---------------------------------------------------------------------
  // Copies of rows under a new id
  // ---------------------------------------------------------------------

  /**
   `m` carries the rows of `s` that satisfy `p` one for one onto the rows that `d'` has beyond
   `d`, each changed only by `tr`; the rows of `d` are untouched.
   */
  ghost predicate Copied<T(!new)>(s: Table<T>, p: T -> bool, d: Table<T>, d': Table<T>, tr: T -> T, m: map<nat, nat>) {
    && (forall k :: k in m <==> k in s && p(s[k]))
    && (forall i, j | i in m && j in m && m[i] == m[j] :: i == j)
    && (forall k | k in m :: m[k] in d' && m[k] !in d && d'[m[k]] == tr(s[k]))
    && (forall k | k in d' && k !in d :: exists i :: i in m && m[i] == k)
    && (forall k | k in d :: k in d' && d'[k] == d[k])
  }

  /** Inserting the translated rows of a listing copies them. */
  lemma AppendCopies<T(!new)>(s: Table<T>, p: T -> bool, d: Table<T>, tr: T -> T, ids: seq<nat>, rows: seq<T>)
    requires Lists(ids, s, p) && |rows| == |ids|
    requires forall i | 0 <= i < |ids| :: rows[i] == tr(s[ids[i]])
    ensures Copied(s, p, d, Append(d, rows), tr, IdMap(ids, NextId(d)))
  {
    var m := IdMap(ids, NextId(d));
    IdMapAt(ids, NextId(d));
    forall k | k in m
      ensures m[k] in Append(d, rows) && m[k] !in d && Append(d, rows)[m[k]] == tr(s[k])
    {
      var i := PositionOf(ids, k);
      assert m[ids[i]] == NextId(d) + i;
    }
    forall i, j | i in m && j in m && m[i] == m[j]
      ensures i == j
    {
      var x := PositionOf(ids, i);
      var y := PositionOf(ids, j);
      assert m[ids[x]] == NextId(d) + x && m[ids[y]] == NextId(d) + y;
    }
    forall k | k in Append(d, rows) && k !in d
      ensures exists i :: i in m && m[i] == k
    {
      assert m[ids[k - NextId(d)]] == k;
    }
  }

  lemma PositionOf(ids: seq<nat>, k: nat) returns (i: nat)
    requires k in ids
    ensures i < |ids| && ids[i] == k
  {
    i :| 0 <= i < |ids| && ids[i] == k;
  }
}
