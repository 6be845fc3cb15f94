/**
 What the import loops add up to when no constraint stands in the way: each
 table is extended by one translated row per record, in order.
 */
module BackupFold {
  import opened Wrappers
  import opened Tables
  import opened Schema
  import opened Backup
  import opened BackupExport

  lemma NotTakenAfter<T(!new), K>(t: Table<T>, rows: seq<T>, key: T -> K, row: T)
    requires forall k | k in t :: key(t[k]) != key(row)
    requires forall i | 0 <= i < |rows| :: key(rows[i]) != key(row)
    ensures !Taken(Append(t, rows), key, row)
  {
    forall k | k in Append(t, rows)
      ensures key(Append(t, rows)[k]) != key(row)
    {
      AppendAt(t, rows, k);
    }
  }

  lemma AppendNothing<T>(t: Table<T>)
    ensures Append(t, []) == t
  {
  }

  // ---------------------------------------------------------------------
  // Addresses and sync heights
  // ---------------------------------------------------------------------

  function TaddrRows(account: nat, ios: seq<IOTaddr>): seq<Taddr> {
    seq(|ios|, i requires 0 <= i < |ios| => TaddrRow(account, ios[i]))
  }

  ghost predicate DistinctTaddrs(ios: seq<IOTaddr>) {
    forall i, j | 0 <= i < j < |ios| ::
      (ios[i].cols.scope, ios[i].cols.dindex) != (ios[j].cols.scope, ios[j].cols.dindex)
  }

  lemma {:induction false} TaddrsAdded(account: nat, t: Table<Taddr>, ios: seq<IOTaddr>)
    requires forall k | k in t :: t[k].account != account
    requires DistinctTaddrs(ios)
    ensures AddTaddrs(account, t, ios) == Some(Append(t, TaddrRows(account, ios)))
  {
    hide Append, NextId, Taken;
    if ios == [] {
      AppendNothing(t);
    } else {
      var front, last := ios[..|ios| - 1], ios[|ios| - 1];
      TaddrsAdded(account, t, front);
      var rows, row := TaddrRows(account, front), TaddrRow(account, last);
      forall i | 0 <= i < |rows|
        ensures TaddrKey(rows[i]) != TaddrKey(row)
      {
        assert front[i] == ios[i];
      }
      NotTakenAfter(t, rows, TaddrKey, row);
      AppendAppend(t, rows, [row]);
      assert TaddrRows(account, ios) == rows + [row];
    }
  }

  lemma {:induction false} SyncHeightsAdded(account: nat, t: map<(nat, nat), nat>, ss: seq<IOSync>)
    requires forall k | k in t :: k.0 != account
    requires NoDup(SyncPools(ss))
    ensures AddSyncHeights(account, t, ss).Some?
    ensures SyncHeightsRestored(account, t, ss, AddSyncHeights(account, t, ss).value)
  {
    if ss != [] {
      var front, last := ss[..|ss| - 1], ss[|ss| - 1];
      PoolsFront(ss);
      SyncHeightsAdded(account, t, front);
      hide AddSyncHeights;
      SyncHeightStep(account, t, front, last, AddSyncHeights(account, t, front).value);
      assert front + [last] == ss;
    }
  }

  lemma PoolsFront(ss: seq<IOSync>)
    requires ss != [] && NoDup(SyncPools(ss))
    ensures NoDup(SyncPools(ss[..|ss| - 1])) && ss[|ss| - 1].pool !in SyncPools(ss[..|ss| - 1])
  {
    var front, pools := ss[..|ss| - 1], SyncPools(ss);
    assert pools == SyncPools(front) + [ss[|ss| - 1].pool] && pools[..|front|] == SyncPools(front);
    assert forall i | 0 <= i < |front| :: SyncPools(front)[i] == pools[i] != pools[|front|];
  }

  lemma SyncHeightStep(account: nat, t: map<(nat, nat), nat>, front: seq<IOSync>, last: IOSync, t': map<(nat, nat),
          nat>)
    requires SyncHeightsRestored(account, t, front, t') && last.pool !in SyncPools(front) && forall k | k in t ::
               k.0 != account
    ensures (account, last.pool) !in t'
    ensures SyncHeightsRestored(account, t, front + [last], t'[(account, last.pool) := last.height])
  {
    var ss := front + [last];
    assert SyncPools(ss) == SyncPools(front) + [last.pool];
    forall i | 0 <= i < |front|
      ensures ss[i] == front[i] && front[i].pool != last.pool
    {
      assert front[i].pool == SyncPools(front)[i];
    }
  }

  ghost predicate SyncHeightsRestored(account: nat, t: map<(nat, nat), nat>, ss: seq<IOSync>, t': map<(nat, nat),
          nat>) {
    && (forall k :: k in t' <==> k in t || (k.0 == account && k.1 in SyncPools(ss)))
    && (forall k | k in t :: t'[k] == t[k])
    && (forall i | 0 <= i < |ss| :: (account, ss[i].pool) in t' && t'[(account, ss[i].pool)] == ss[i].height)
  }

  // ---------------------------------------------------------------------
  // The notes of one transaction
  // ---------------------------------------------------------------------

  function NoteRowsOf(c: Ctx, newTx: nat, ns: seq<IONote>): seq<Note> {
    seq(|ns|, i requires 0 <= i < |ns| => NoteRow(c, newTx, ns[i]))
  }

  function NoteMemosOf(c: Ctx, newTx: nat, first: nat, ns: seq<IONote>): seq<Memo> {
    if ns == [] then []
    else
      var n := ns[|ns| - 1];
      NoteMemosOf(c, newTx, first, ns[..|ns| - 1])
      + (if n.vout.Some? && n.memoBytes.Some? then [NoteMemo(c, newTx, first + |ns| - 1, n)] else [])
  }

  ghost predicate DistinctNullifiers(ns: seq<IONote>) {
    forall i, j | 0 <= i < j < |ns| :: ns[i].cols.nullifier != ns[j].cols.nullifier
  }

  ghost predicate NoteMemosOk(ns: seq<IONote>) {
    && (forall i | 0 <= i < |ns| && ns[i].vout.Some? :: ns[i].memoBytes.Some?)
    && (forall i, j | 0 <= i < j < |ns| && ns[i].vout.Some? && ns[j].vout.Some? ::
          (ns[i].cols.pool, ns[i].vout.value) != (ns[j].cols.pool, ns[j].vout.value))
  }

  lemma {:induction false} NoteMemosFrom(c: Ctx, newTx: nat, first: nat, ns: seq<IONote>)
    ensures forall m | m in NoteMemosOf(c, newTx, first, ns) :: IsNoteMemo(c, newTx, first, ns, m)
    ensures forall i | 0 <= i < |ns| && ns[i].vout.Some? && ns[i].memoBytes.Some? ::
              NoteMemo(c, newTx, first + i, ns[i]) in NoteMemosOf(c, newTx, first, ns)
  {
    if ns != [] {
      var front := ns[..|ns| - 1];
      NoteMemosFrom(c, newTx, first, front);
      forall m | m in NoteMemosOf(c, newTx, first, ns)
        ensures IsNoteMemo(c, newTx, first, ns, m)
      {
        if m in NoteMemosOf(c, newTx, first, front) {
          var i: nat :| IsNoteMemoAt(c, newTx, first, front, m, i);
          assert IsNoteMemoAt(c, newTx, first, ns, m, i);
        } else {
          assert IsNoteMemoAt(c, newTx, first, ns, m, |ns| - 1);
        }
      }
      forall i | 0 <= i < |ns| && ns[i].vout.Some? && ns[i].memoBytes.Some?
        ensures NoteMemo(c, newTx, first + i, ns[i]) in NoteMemosOf(c, newTx, first, ns)
      {
        if i < |front| {
          assert front[i] == ns[i];
        }
      }
    }
  }

  ghost predicate IsNoteMemoAt(c: Ctx, newTx: nat, first: nat, ns: seq<IONote>, m: Memo, i: nat) {
    i < |ns| && ns[i].vout.Some? && ns[i].memoBytes.Some? && m == NoteMemo(c, newTx, first + i, ns[i])
  }

  ghost predicate IsNoteMemo(c: Ctx, newTx: nat, first: nat, ns: seq<IONote>, m: Memo) {
    exists i: nat :: IsNoteMemoAt(c, newTx, first, ns, m, i)
  }

  /** No stored note of the account has one of the nullifiers. */
  ghost predicate NullifiersFree(c: Ctx, t: Table<Note>, ns: seq<IONote>) {
    forall k, i | k in t && 0 <= i < |ns| && t[k].account == c.account :: t[k].cols.nullifier != ns[i].cols.nullifier
  }

  lemma NotesTaken(c: Ctx, newTx: nat, t: Table<Note>, ns: seq<IONote>, j: nat)
    requires j < |ns| && NullifiersFree(c, t, ns) && DistinctNullifiers(ns)
    ensures !Taken(Append(t, NoteRowsOf(c, newTx, ns[..j])), NoteKey, NoteRow(c, newTx, ns[j]))
  {
    var rows := NoteRowsOf(c, newTx, ns[..j]);
    forall i | 0 <= i < |rows|
      ensures NoteKey(rows[i]) != NoteKey(NoteRow(c, newTx, ns[j]))
    {
      assert ns[..j][i] == ns[i];
    }
    NotTakenAfter(t, rows, NoteKey, NoteRow(c, newTx, ns[j]));
  }

  /** No stored memo of the transaction. */
  ghost predicate MemosFree(newTx: nat, t: Table<Memo>) {
    forall k | k in t :: t[k].tx != newTx
  }

  lemma NoteMemoTaken(c: Ctx, newTx: nat, first: nat, t: Table<Memo>, ns: seq<IONote>, j: nat)
    requires j < |ns| && MemosFree(newTx, t) && NoteMemosOk(ns) && ns[j].vout.Some?
    ensures !Taken(Append(t, NoteMemosOf(c, newTx, first, ns[..j])), MemoKey, NoteMemo(c, newTx, first + j, ns[j]))
  {
    var rows, row := NoteMemosOf(c, newTx, first, ns[..j]), NoteMemo(c, newTx, first + j, ns[j]);
    hide NoteMemosOf, Append, NextId;
    NoteMemosFrom(c, newTx, first, ns[..j]);
    forall k | 0 <= k < |rows|
      ensures MemoKey(rows[k]) != MemoKey(row)
    {
      assert rows[k] in rows;
      var i: nat :| IsNoteMemoAt(c, newTx, first, ns[..j], rows[k], i);
      assert ns[..j][i] == ns[i];
    }
    NotTakenAfter(t, rows, MemoKey, row);
  }

  function NotesDone(c: Ctx, newTx: nat, r: Rows, ns: seq<IONote>): Rows {
    r.(notes := Append(r.notes, NoteRowsOf(c, newTx, ns)),
       memos := Append(r.memos, NoteMemosOf(c, newTx, NextId(r.notes), ns)),
       newNotes := r.newNotes + IdMap(NoteIds(ns), NextId(r.notes)))
  }

  lemma NotesDoneStep(c: Ctx, newTx: nat, r: Rows, ns: seq<IONote>, j: nat)
    requires j < |ns| && (ns[j].vout.Some? ==> ns[j].memoBytes.Some?)
    ensures var before, n := NotesDone(c, newTx, r, ns[..j]), ns[j];
            && NextId(before.notes) == NextId(r.notes) + j
            && NotesDone(c, newTx, r, ns[..j + 1]) ==
               before.(notes := Append(before.notes, [NoteRow(c, newTx, n)]),
                   newNotes := before.newNotes[n.id := NextId(before.notes)],
                       memos := if n.vout.Some?
                         then Append(before.memos, [NoteMemo(c, newTx, NextId(before.notes), n)]) else before.memos)
  {
    hide Append, NextId, IdMap, NoteRowsOf, NoteMemosOf, NoteIds, NoteRow, NoteMemo;
    var first, n := NextId(r.notes), ns[j];
    NoteRowsSnoc(c, newTx, r.notes, ns, j);
    NoteIdsSnoc(ns, j, first);
    NoteMemosSnoc(c, newTx, first, r.memos, ns, j);
    var ids := IdMap(NoteIds(ns[..j]), first);
    assert r.newNotes + ids[n.id := first + j] == (r.newNotes + ids)[n.id := first + j];
  }

  lemma NoteRowsSnoc(c: Ctx, newTx: nat, t: Table<Note>, ns: seq<IONote>, j: nat)
    requires j < |ns|
    ensures var before := Append(t, NoteRowsOf(c, newTx, ns[..j]));
            && NextId(before) == NextId(t) + j
            && Append(t, NoteRowsOf(c, newTx, ns[..j + 1])) == Append(before, [NoteRow(c, newTx, ns[j])])
  {
    hide Append, NextId, NoteRow;
    var rows := NoteRowsOf(c, newTx, ns[..j]);
    NextIdAppend(t, rows);
    AppendAppend(t, rows, [NoteRow(c, newTx, ns[j])]);
    assert NoteRowsOf(c, newTx, ns[..j + 1]) == rows + [NoteRow(c, newTx, ns[j])];
  }

  lemma NoteIdsSnoc(ns: seq<IONote>, j: nat, first: nat)
    requires j < |ns|
    ensures IdMap(NoteIds(ns[..j + 1]), first) == IdMap(NoteIds(ns[..j]), first)[ns[j].id := first + j]
  {
    assert NoteIds(ns[..j + 1]) == NoteIds(ns[..j]) + [ns[j].id];
    IdMapSnoc(NoteIds(ns[..j]), first, ns[j].id);
  }

  lemma NoteMemosSnoc(c: Ctx, newTx: nat, first: nat, t: Table<Memo>, ns: seq<IONote>, j: nat)
    requires j < |ns| && (ns[j].vout.Some? ==> ns[j].memoBytes.Some?)
    ensures var before := Append(t, NoteMemosOf(c, newTx, first, ns[..j]));
            Append(t, NoteMemosOf(c, newTx, first, ns[..j + 1])) ==
            if ns[j].vout.Some? then Append(before, [NoteMemo(c, newTx, first + j, ns[j])]) else before
  {
    assert ns[..j + 1][..j] == ns[..j];
    var rows := NoteMemosOf(c, newTx, first, ns[..j]);
    if ns[j].vout.Some? {
      AppendAppend(t, rows, [NoteMemo(c, newTx, first + j, ns[j])]);
    } else {
      assert rows + [] == rows;
    }
  }

  lemma {:induction false} NotesAdded(c: Ctx, newTx: nat, r: Rows, ns: seq<IONote>, j: nat)
    requires j <= |ns| && NullifiersFree(c, r.notes, ns) && DistinctNullifiers(ns)
    requires MemosFree(newTx, r.memos) && NoteMemosOk(ns)
    ensures AddNotes(c, newTx, r, ns[..j]) == Some(NotesDone(c, newTx, r, ns[..j]))
  {
    if j == 0 {
      assert ns[..0] == [] && NoteRowsOf(c, newTx, []) == [] && NoteIds([]) == [];
      AppendNothing(r.notes);
      AppendNothing(r.memos);
      assert r.newNotes + IdMap([], NextId(r.notes)) == r.newNotes;
    } else {
      hide NotesDone, AddNote, NoteRow, NoteMemosOk, DistinctNullifiers, NullifiersFree, MemosFree;
      NotesAdded(c, newTx, r, ns, j - 1);
      assert ns[..j][..j - 1] == ns[..j - 1];
      NoteAdded(c, newTx, r, ns, j - 1);
    }
  }

  lemma NoteAdded(c: Ctx, newTx: nat, r: Rows, ns: seq<IONote>, j: nat)
    requires j < |ns| && NullifiersFree(c, r.notes, ns) && DistinctNullifiers(ns)
    requires MemosFree(newTx, r.memos) && NoteMemosOk(ns)
    ensures AddNote(c, newTx, NotesDone(c, newTx, r, ns[..j]), ns[j]) == Some(NotesDone(c, newTx, r, ns[..j + 1]))
  {
    hide Append, NextId, NoteMemosOf, NoteRowsOf, Taken, NoteMemosOk;
    NotesTaken(c, newTx, r.notes, ns, j);
    NoteMemoBytes(ns, j);
    NotesDoneStep(c, newTx, r, ns, j);
    if ns[j].vout.Some? {
      NoteMemoTaken(c, newTx, NextId(r.notes), r.memos, ns, j);
    }
  }

  lemma NoteMemoBytes(ns: seq<IONote>, j: nat)
    requires j < |ns| && NoteMemosOk(ns)
    ensures ns[j].vout.Some? ==> ns[j].memoBytes.Some?
  {
  }

  // ---------------------------------------------------------------------
  // The outputs of one transaction
  // ---------------------------------------------------------------------

  function OutputRowsOf(c: Ctx, newTx: nat, os: seq<IOOutput>): seq<Output> {
    seq(|os|, i requires 0 <= i < |os| => OutputRow(c, newTx, os[i]))
  }

  function OutputMemosOf(c: Ctx, newTx: nat, first: nat, os: seq<IOOutput>): seq<Memo> {
    if os == [] then []
    else
      var o := os[|os| - 1];
      OutputMemosOf(c, newTx, first, os[..|os| - 1])
      + (if o.memoBytes.Some? then [OutputMemo(c, newTx, first + |os| - 1, o)] else [])
  }

  ghost predicate DistinctPlaces(os: seq<IOOutput>) {
    forall i, j | 0 <= i < j < |os| :: (os[i].cols.pool, os[i].cols.vout) != (os[j].cols.pool, os[j].cols.vout)
  }

  ghost predicate IsOutputMemoAt(c: Ctx, newTx: nat, first: nat, os: seq<IOOutput>, m: Memo, i: nat) {
    i < |os| && os[i].memoBytes.Some? && m == OutputMemo(c, newTx, first + i, os[i])
  }

  ghost predicate IsOutputMemo(c: Ctx, newTx: nat, first: nat, os: seq<IOOutput>, m: Memo) {
    exists i: nat :: IsOutputMemoAt(c, newTx, first, os, m, i)
  }

  lemma {:induction false} OutputMemosFrom(c: Ctx, newTx: nat, first: nat, os: seq<IOOutput>)
    ensures forall m | m in OutputMemosOf(c, newTx, first, os) :: IsOutputMemo(c, newTx, first, os, m)
    ensures forall i | 0 <= i < |os| && os[i].memoBytes.Some? ::
              OutputMemo(c, newTx, first + i, os[i]) in OutputMemosOf(c, newTx, first, os)
  {
    if os != [] {
      var front := os[..|os| - 1];
      OutputMemosFrom(c, newTx, first, front);
      forall m | m in OutputMemosOf(c, newTx, first, os)
        ensures IsOutputMemo(c, newTx, first, os, m)
      {
        if m in OutputMemosOf(c, newTx, first, front) {
          var i: nat :| IsOutputMemoAt(c, newTx, first, front, m, i);
          assert IsOutputMemoAt(c, newTx, first, os, m, i);
        } else {
          assert IsOutputMemoAt(c, newTx, first, os, m, |os| - 1);
        }
      }
      forall i | 0 <= i < |os| && os[i].memoBytes.Some?
        ensures OutputMemo(c, newTx, first + i, os[i]) in OutputMemosOf(c, newTx, first, os)
      {
        if i < |front| {
          assert front[i] == os[i];
        }
      }
    }
  }

  ghost predicate OutputsFree(newTx: nat, t: Table<Output>) {
    forall k | k in t :: t[k].tx != newTx
  }

  /** The memos stored so far leave the places of the outputs that carry one free. */
  ghost predicate PlacesFree(newTx: nat, t: Table<Memo>, os: seq<IOOutput>) {
    forall k, i | k in t && 0 <= i < |os| && os[i].memoBytes.Some? ::
      MemoKey(t[k]) != (newTx, os[i].cols.pool, os[i].cols.vout)
  }

  lemma OutputTaken(c: Ctx, newTx: nat, t: Table<Output>, os: seq<IOOutput>, j: nat)
    requires j < |os| && OutputsFree(newTx, t) && DistinctPlaces(os)
    ensures !Taken(Append(t, OutputRowsOf(c, newTx, os[..j])), OutputKey, OutputRow(c, newTx, os[j]))
  {
    var rows := OutputRowsOf(c, newTx, os[..j]);
    forall i | 0 <= i < |rows|
      ensures OutputKey(rows[i]) != OutputKey(OutputRow(c, newTx, os[j]))
    {
      assert os[..j][i] == os[i];
    }
    NotTakenAfter(t, rows, OutputKey, OutputRow(c, newTx, os[j]));
  }

  lemma OutputMemoTaken(c: Ctx, newTx: nat, first: nat, t: Table<Memo>, os: seq<IOOutput>, j: nat)
    requires j < |os| && PlacesFree(newTx, t, os) && DistinctPlaces(os) && os[j].memoBytes.Some?
    ensures !Taken(Append(t, OutputMemosOf(c, newTx, first, os[..j])), MemoKey, OutputMemo(c, newTx, first + j, os[j]))
  {
    var rows, row := OutputMemosOf(c, newTx, first, os[..j]), OutputMemo(c, newTx, first + j, os[j]);
    hide OutputMemosOf, Append, NextId;
    OutputMemosFrom(c, newTx, first, os[..j]);
    forall k | 0 <= k < |rows|
      ensures MemoKey(rows[k]) != MemoKey(row)
    {
      assert rows[k] in rows;
      var i: nat :| IsOutputMemoAt(c, newTx, first, os[..j], rows[k], i);
      assert os[..j][i] == os[i];
    }
    NotTakenAfter(t, rows, MemoKey, row);
  }

  function OutputsDone(c: Ctx, newTx: nat, r: Rows, os: seq<IOOutput>): Rows {
    r.(outputs := Append(r.outputs, OutputRowsOf(c, newTx, os)),
       memos := Append(r.memos, OutputMemosOf(c, newTx, NextId(r.outputs), os)))
  }

  lemma OutputRowsSnoc(c: Ctx, newTx: nat, t: Table<Output>, os: seq<IOOutput>, j: nat)
    requires j < |os|
    ensures var before := Append(t, OutputRowsOf(c, newTx, os[..j]));
            && NextId(before) == NextId(t) + j
            && Append(t, OutputRowsOf(c, newTx, os[..j + 1])) == Append(before, [OutputRow(c, newTx, os[j])])
  {
    hide Append, NextId, OutputRow;
    var rows := OutputRowsOf(c, newTx, os[..j]);
    NextIdAppend(t, rows);
    AppendAppend(t, rows, [OutputRow(c, newTx, os[j])]);
    assert OutputRowsOf(c, newTx, os[..j + 1]) == rows + [OutputRow(c, newTx, os[j])];
  }

  lemma OutputMemosSnoc(c: Ctx, newTx: nat, first: nat, t: Table<Memo>, os: seq<IOOutput>, j: nat)
    requires j < |os|
    ensures var before := Append(t, OutputMemosOf(c, newTx, first, os[..j]));
            Append(t, OutputMemosOf(c, newTx, first, os[..j + 1])) ==
            if os[j].memoBytes.Some? then Append(before, [OutputMemo(c, newTx, first + j, os[j])]) else before
  {
    assert os[..j + 1][..j] == os[..j];
    var rows := OutputMemosOf(c, newTx, first, os[..j]);
    if os[j].memoBytes.Some? {
      AppendAppend(t, rows, [OutputMemo(c, newTx, first + j, os[j])]);
    } else {
      assert rows + [] == rows;
    }
  }

  lemma OutputAdded(c: Ctx, newTx: nat, r: Rows, os: seq<IOOutput>, j: nat)
    requires j < |os| && OutputsFree(newTx, r.outputs) && PlacesFree(newTx, r.memos, os) && DistinctPlaces(os)
    ensures AddOutput(c, newTx, OutputsDone(c, newTx, r, os[..j]), os[j]) == Some(OutputsDone(c, newTx, r, os[..j + 1]))
  {
    hide Append, NextId, OutputMemosOf, OutputRowsOf, Taken, OutputRow, OutputMemo;
    OutputTaken(c, newTx, r.outputs, os, j);
    OutputRowsSnoc(c, newTx, r.outputs, os, j);
    OutputMemosSnoc(c, newTx, NextId(r.outputs), r.memos, os, j);
    if os[j].memoBytes.Some? {
      OutputMemoTaken(c, newTx, NextId(r.outputs), r.memos, os, j);
    }
  }

  lemma {:induction false} OutputsAdded(c: Ctx, newTx: nat, r: Rows, os: seq<IOOutput>, j: nat)
    requires j <= |os| && OutputsFree(newTx, r.outputs) && PlacesFree(newTx, r.memos, os) && DistinctPlaces(os)
    ensures AddOutputs(c, newTx, r, os[..j]) == Some(OutputsDone(c, newTx, r, os[..j]))
  {
    if j == 0 {
      assert os[..0] == [] && OutputRowsOf(c, newTx, []) == [];
      AppendNothing(r.outputs);
      AppendNothing(r.memos);
    } else {
      hide OutputsDone;
      OutputsAdded(c, newTx, r, os, j - 1);
      assert os[..j][..j - 1] == os[..j - 1];
      OutputAdded(c, newTx, r, os, j - 1);
    }
  }

  // ---------------------------------------------------------------------
  // One transaction
  // ---------------------------------------------------------------------

  /** What keeps the memos and outputs of one transaction from colliding with each other. */
  ghost predicate TxOk(io: IOTx) {
    && NoteMemosOk(io.notes) && DistinctPlaces(io.outputs)
    && forall i, j | 0 <= i < |io.notes| && 0 <= j < |io.outputs| && io.notes[i].vout.Some?
    && io.outputs[j].memoBytes.Some? ::
         (io.notes[i].cols.pool, io.notes[i].vout.value) != (io.outputs[j].cols.pool, io.outputs[j].cols.vout)
  }

  /** The rows one transaction adds, in front of which `r` stands. */
  function TxDone(c: Ctx, r: Rows, io: IOTx): Rows {
    var newTx := NextId(r.txs);
    Rows(Append(r.txs, [TxRow(c, io)]),
         Append(r.notes, NoteRowsOf(c, newTx, io.notes)),
         Append(r.outputs, OutputRowsOf(c, newTx, io.outputs)),
         Append(r.memos, NoteMemosOf(c, newTx, NextId(r.notes), io.notes) + OutputMemosOf(c, newTx,
             NextId(r.outputs), io.outputs)),
         r.newTxs[io.id := newTx],
         r.newNotes + IdMap(NoteIds(io.notes), NextId(r.notes)))
  }

  lemma PlacesStayFree(c: Ctx, newTx: nat, first: nat, t: Table<Memo>, io: IOTx)
    requires MemosFree(newTx, t) && TxOk(io)
    ensures PlacesFree(newTx, Append(t, NoteMemosOf(c, newTx, first, io.notes)), io.outputs)
  {
    var rows := NoteMemosOf(c, newTx, first, io.notes);
    hide NoteMemosOf;
    NoteMemosFrom(c, newTx, first, io.notes);
    forall k, j | k in Append(t, rows) && 0 <= j < |io.outputs| && io.outputs[j].memoBytes.Some?
      ensures MemoKey(Append(t, rows)[k]) != (newTx, io.outputs[j].cols.pool, io.outputs[j].cols.vout)
    {
      AppendAt(t, rows, k);
      if k !in t {
        var m := rows[k - NextId(t)];
        assert m in rows;
        var i: nat :| IsNoteMemoAt(c, newTx, first, io.notes, m, i);
      }
    }
  }

  lemma TxAdded(c: Ctx, r: Rows, io: IOTx)
    requires !Taken(r.txs, TxKey, TxRow(c, io))
    requires NullifiersFree(c, r.notes, io.notes) && DistinctNullifiers(io.notes)
    requires MemosFree(NextId(r.txs), r.memos) && OutputsFree(NextId(r.txs), r.outputs) && TxOk(io)
    ensures AddTx(c, r, io) == Some(TxDone(c, r, io))
  {
    hide Append, NextId, Taken, AddNotes, AddOutputs, NoteMemosOf, NoteRowsOf, OutputMemosOf, OutputRowsOf;
    hide NullifiersFree, DistinctNullifiers, MemosFree, OutputsFree, NoteMemosOk, DistinctPlaces, PlacesFree;
    var newTx := NextId(r.txs);
    var r1 := AddTxRow(c, r, io).value;
    NotesAdded(c, newTx, r1, io.notes, |io.notes|);
    assert io.notes[..|io.notes|] == io.notes && io.outputs[..|io.outputs|] == io.outputs;
    var r2 := NotesDone(c, newTx, r1, io.notes);
    PlacesStayFree(c, newTx, NextId(r.notes), r.memos, io);
    OutputsAdded(c, newTx, r2, io.outputs, |io.outputs|);
    AppendAppend(r.memos, NoteMemosOf(c, newTx, NextId(r.notes), io.notes),
        OutputMemosOf(c, newTx, NextId(r.outputs), io.outputs));
  }

  // ---------------------------------------------------------------------
  // All transactions
  // ---------------------------------------------------------------------

  function FlatNotes(ios: seq<IOTx>): seq<IONote> {
    if ios == [] then [] else FlatNotes(ios[..|ios| - 1]) + ios[|ios| - 1].notes
  }

  function FlatOutputs(ios: seq<IOTx>): seq<IOOutput> {
    if ios == [] then [] else FlatOutputs(ios[..|ios| - 1]) + ios[|ios| - 1].outputs
  }

  function TxRows(c: Ctx, ios: seq<IOTx>): seq<Tx> {
    seq(|ios|, i requires 0 <= i < |ios| => TxRow(c, ios[i]))
  }

  function NoteRows(c: Ctx, firstTx: nat, ios: seq<IOTx>): seq<Note> {
    if ios == [] then []
    else NoteRows(c, firstTx, ios[..|ios| - 1]) + NoteRowsOf(c, firstTx + |ios| - 1, ios[|ios| - 1].notes)
  }

  function OutputRows(c: Ctx, firstTx: nat, ios: seq<IOTx>): seq<Output> {
    if ios == [] then []
    else OutputRows(c, firstTx, ios[..|ios| - 1]) + OutputRowsOf(c, firstTx + |ios| - 1, ios[|ios| - 1].outputs)
  }

  /** The memos of one transaction, whose notes and outputs got ids from the given ones on. */
  function MemosOf(c: Ctx, newTx: nat, firstNote: nat, firstOutput: nat, io: IOTx): seq<Memo> {
    NoteMemosOf(c, newTx, firstNote, io.notes) + OutputMemosOf(c, newTx, firstOutput, io.outputs)
  }

  function MemoRows(c: Ctx, firstTx: nat, firstNote: nat, firstOutput: nat, ios: seq<IOTx>): seq<Memo> {
    if ios == [] then []
    else
      var front := ios[..|ios| - 1];
      MemoRows(c, firstTx, firstNote, firstOutput, front)
      + MemosOf(c, firstTx + |front|, firstNote + |FlatNotes(front)|, firstOutput + |FlatOutputs(front)|,
          ios[|ios| - 1])
  }

  function TxsDone(c: Ctx, r: Rows, ios: seq<IOTx>): Rows {
    var firstTx, firstNote, firstOutput := NextId(r.txs), NextId(r.notes), NextId(r.outputs);
    Rows(Append(r.txs, TxRows(c, ios)), Append(r.notes, NoteRows(c, firstTx, ios)),
        Append(r.outputs, OutputRows(c, firstTx, ios)),
         Append(r.memos, MemoRows(c, firstTx, firstNote, firstOutput, ios)),
         r.newTxs + IdMap(TxIds(ios), firstTx), r.newNotes + IdMap(NoteIds(FlatNotes(ios)), firstNote))
  }

  ghost predicate DistinctTxids(ios: seq<IOTx>) {
    forall i, j | 0 <= i < j < |ios| :: ios[i].cols.txid != ios[j].cols.txid
  }

  ghost predicate TxsOk(ios: seq<IOTx>) {
    DistinctTxids(ios) && DistinctNullifiers(FlatNotes(ios)) && forall i | 0 <= i < |ios| :: TxOk(ios[i])
  }

  /** The account is new, and stored memos and outputs stand in stored transactions. */
  ghost predicate FreshRows(account: nat, r: Rows) {
    && (forall k | k in r.txs :: r.txs[k].account != account)
    && (forall k | k in r.notes :: r.notes[k].account != account)
    && (forall k | k in r.memos :: r.memos[k].tx in r.txs)
    && (forall k | k in r.outputs :: r.outputs[k].tx in r.txs)
  }

  lemma {:induction false} RowCounts(c: Ctx, firstTx: nat, ios: seq<IOTx>)
    ensures |NoteRows(c, firstTx, ios)| == |FlatNotes(ios)|
    ensures |OutputRows(c, firstTx, ios)| == |FlatOutputs(ios)|
    ensures forall k | 0 <= k < |FlatNotes(ios)| ::
              NoteRows(c, firstTx, ios)[k].cols.nullifier == FlatNotes(ios)[k].cols.nullifier
    ensures forall k | 0 <= k < |FlatOutputs(ios)| :: OutputRows(c, firstTx, ios)[k].tx < firstTx + |ios|
  {
    if ios != [] {
      RowCounts(c, firstTx, ios[..|ios| - 1]);
    }
  }

  lemma {:induction false} MemoRowsBelow(c: Ctx, firstTx: nat, firstNote: nat, firstOutput: nat, ios: seq<IOTx>)
    ensures forall k | 0 <= k < |MemoRows(c, firstTx, firstNote, firstOutput, ios)| ::
              MemoRows(c, firstTx, firstNote, firstOutput, ios)[k].tx < firstTx + |ios|
  {
    if ios != [] {
      var front, io := ios[..|ios| - 1], ios[|ios| - 1];
      MemoRowsBelow(c, firstTx, firstNote, firstOutput, front);
      MemosOfTx(c, firstTx + |front|, firstNote + |FlatNotes(front)|, firstOutput + |FlatOutputs(front)|, io);
    }
  }

  lemma MemosOfTx(c: Ctx, newTx: nat, firstNote: nat, firstOutput: nat, io: IOTx)
    ensures forall k | 0 <= k < |MemosOf(c, newTx, firstNote, firstOutput, io)| ::
              MemosOf(c, newTx, firstNote, firstOutput, io)[k].tx == newTx
  {
    var l: seq<Memo> := NoteMemosOf(c, newTx, firstNote, io.notes);
    var r: seq<Memo> := OutputMemosOf(c, newTx, firstOutput, io.outputs);
    NoteMemosFrom(c, newTx, firstNote, io.notes);
    OutputMemosFrom(c, newTx, firstOutput, io.outputs);
    hide NoteMemosOf, OutputMemosOf;
    forall k | 0 <= k < |l + r|
      ensures (l + r)[k].tx == newTx
    {
      if k < |l| {
        assert l[k] in l;
        assert IsNoteMemo(c, newTx, firstNote, io.notes, l[k]);
      } else {
        assert r[k - |l|] in r;
        assert IsOutputMemo(c, newTx, firstOutput, io.outputs, r[k - |l|]);
      }
    }
  }

  lemma {:induction false} IdMapAppend(a: seq<nat>, b: seq<nat>, first: nat)
    ensures IdMap(a + b, first) == IdMap(a, first) + IdMap(b, first + |a|)
  {
    if b == [] {
      assert a + b == a;
    } else {
      var front, last := b[..|b| - 1], b[|b| - 1];
      IdMapAppend(a, front, first);
      assert front + [last] == b && a + b == (a + front) + [last];
      hide *;
      IdMapSnoc(a + front, first, last);
      IdMapSnoc(front, first + |a|, last);
      MapsAssociate(IdMap(a, first), IdMap(front, first + |a|), last, first + |a + front|);
    }
  }

  lemma TxRowsSnoc(c: Ctx, t: Table<Tx>, front: seq<IOTx>, io: IOTx)
    ensures NextId(Append(t, TxRows(c, front))) == NextId(t) + |front|
    ensures Append(t, TxRows(c, front + [io])) == Append(Append(t, TxRows(c, front)), [TxRow(c, io)])
  {
    hide Append, NextId, TxRow;
    NextIdAppend(t, TxRows(c, front));
    AppendAppend(t, TxRows(c, front), [TxRow(c, io)]);
    assert TxRows(c, front + [io]) == TxRows(c, front) + [TxRow(c, io)];
  }

  lemma RowsSnoc<T(!new)>(t: Table<T>, front: seq<T>, more: seq<T>, all: seq<T>, count: nat)
    requires all == front + more && |front| == count
    ensures Append(t, all) == Append(Append(t, front), more)
    ensures NextId(Append(t, front)) == NextId(t) + count
  {
    NextIdAppend(t, front);
    AppendAppend(t, front, more);
  }

  lemma TxsDoneStep(c: Ctx, r: Rows, front: seq<IOTx>, io: IOTx)
    ensures TxDone(c, TxsDone(c, r, front), io) == TxsDone(c, r, front + [io])
    ensures NextId(TxsDone(c, r, front).txs) == NextId(r.txs) + |front|
  {
    hide *;
    StepTxs(c, r, front, io);
    StepNotes(c, r, front, io);
    StepOutputs(c, r, front, io);
    StepMemos(c, r, front, io);
    StepMaps(c, r, front, io);
  }

  lemma StepTxs(c: Ctx, r: Rows, front: seq<IOTx>, io: IOTx)
    ensures TxDone(c, TxsDone(c, r, front), io).txs == TxsDone(c, r, front + [io]).txs
    ensures NextId(TxsDone(c, r, front).txs) == NextId(r.txs) + |front|
  {
    hide Append, NextId, TxRows, TxRow, NoteRows, OutputRows, MemoRows, IdMap, NoteRowsOf, OutputRowsOf, NoteMemosOf,
        OutputMemosOf;
    TxRowsSnoc(c, r.txs, front, io);
  }

  lemma NotesPart(c: Ctx, r: Rows, ios: seq<IOTx>, io: IOTx)
    ensures TxsDone(c, r, ios).notes == Append(r.notes, NoteRows(c, NextId(r.txs), ios))
    ensures TxDone(c, r, io).notes == Append(r.notes, NoteRowsOf(c, NextId(r.txs), io.notes))
  {
  }

  lemma OutputsPart(c: Ctx, r: Rows, ios: seq<IOTx>, io: IOTx)
    ensures TxsDone(c, r, ios).outputs == Append(r.outputs, OutputRows(c, NextId(r.txs), ios))
    ensures TxDone(c, r, io).outputs == Append(r.outputs, OutputRowsOf(c, NextId(r.txs), io.outputs))
  {
  }

  lemma StepNotes(c: Ctx, r: Rows, front: seq<IOTx>, io: IOTx)
    ensures TxDone(c, TxsDone(c, r, front), io).notes == TxsDone(c, r, front + [io]).notes
    ensures NextId(TxsDone(c, r, front).notes) == NextId(r.notes) + |FlatNotes(front)|
  {
    hide *;
    var firstTx := NextId(r.txs);
    NotesPart(c, r, front, io);
    NotesPart(c, r, front + [io], io);
    NotesPart(c, TxsDone(c, r, front), [], io);
    StepTxs(c, r, front, io);
    RowCounts(c, firstTx, front);
    FlatSnoc(c, firstTx, NextId(r.notes), NextId(r.outputs), front, io);
    RowsSnoc(r.notes, NoteRows(c, firstTx, front), NoteRowsOf(c, firstTx + |front|, io.notes),
        NoteRows(c, firstTx, front + [io]), |FlatNotes(front)|);
  }

  lemma StepOutputs(c: Ctx, r: Rows, front: seq<IOTx>, io: IOTx)
    ensures TxDone(c, TxsDone(c, r, front), io).outputs == TxsDone(c, r, front + [io]).outputs
    ensures NextId(TxsDone(c, r, front).outputs) == NextId(r.outputs) + |FlatOutputs(front)|
  {
    hide *;
    var firstTx := NextId(r.txs);
    OutputsPart(c, r, front, io);
    OutputsPart(c, r, front + [io], io);
    OutputsPart(c, TxsDone(c, r, front), [], io);
    StepTxs(c, r, front, io);
    RowCounts(c, firstTx, front);
    FlatSnoc(c, firstTx, NextId(r.notes), NextId(r.outputs), front, io);
    RowsSnoc(r.outputs, OutputRows(c, firstTx, front), OutputRowsOf(c, firstTx + |front|, io.outputs),
        OutputRows(c, firstTx, front + [io]),
             |FlatOutputs(front)|);
  }

  lemma MemosPart(c: Ctx, r: Rows, ios: seq<IOTx>, io: IOTx)
    ensures TxsDone(c, r, ios).memos ==
              Append(r.memos, MemoRows(c, NextId(r.txs), NextId(r.notes), NextId(r.outputs), ios))
    ensures TxDone(c, r, io).memos == Append(r.memos, MemosOf(c, NextId(r.txs), NextId(r.notes), NextId(r.outputs), io))
  {
  }

  lemma MapsPart(c: Ctx, r: Rows, ios: seq<IOTx>, io: IOTx)
    ensures TxsDone(c, r, ios).newTxs == r.newTxs + IdMap(TxIds(ios), NextId(r.txs))
    ensures TxsDone(c, r, ios).newNotes == r.newNotes + IdMap(NoteIds(FlatNotes(ios)), NextId(r.notes))
    ensures TxDone(c, r, io).newTxs == r.newTxs[io.id := NextId(r.txs)]
    ensures TxDone(c, r, io).newNotes == r.newNotes + IdMap(NoteIds(io.notes), NextId(r.notes))
  {
  }

  lemma StepMemos(c: Ctx, r: Rows, front: seq<IOTx>, io: IOTx)
    ensures TxDone(c, TxsDone(c, r, front), io).memos == TxsDone(c, r, front + [io]).memos
  {
    hide *;
    var firstTx, firstNote, firstOutput := NextId(r.txs), NextId(r.notes), NextId(r.outputs);
    FlatSnoc(c, firstTx, firstNote, firstOutput, front, io);
    var memos := MemoRows(c, firstTx, firstNote, firstOutput, front);
    RowsSnoc(r.memos, memos, MemosOf(c, firstTx + |front|, firstNote + |FlatNotes(front)|,
        firstOutput + |FlatOutputs(front)|, io),
             MemoRows(c, firstTx, firstNote, firstOutput, front + [io]), |memos|);
    StepTxs(c, r, front, io);
    StepNotes(c, r, front, io);
    StepOutputs(c, r, front, io);
    MemosPart(c, r, front, io);
    MemosPart(c, r, front + [io], io);
    MemosPart(c, TxsDone(c, r, front), [], io);
  }

  lemma StepMaps(c: Ctx, r: Rows, front: seq<IOTx>, io: IOTx)
    ensures TxDone(c, TxsDone(c, r, front), io).newTxs == TxsDone(c, r, front + [io]).newTxs
    ensures TxDone(c, TxsDone(c, r, front), io).newNotes == TxsDone(c, r, front + [io]).newNotes
  {
    hide *;
    var firstTx, firstNote := NextId(r.txs), NextId(r.notes);
    IdsSnoc(front, io, firstTx, firstNote);
    MapsAssociate(r.newTxs, IdMap(TxIds(front), firstTx), io.id, firstTx + |front|);
    MapUnions(r.newNotes, IdMap(NoteIds(FlatNotes(front)), firstNote),
        IdMap(NoteIds(io.notes), firstNote + |FlatNotes(front)|));
    StepTxs(c, r, front, io);
    StepNotes(c, r, front, io);
    MapsPart(c, r, front, io);
    MapsPart(c, r, front + [io], io);
    MapsPart(c, TxsDone(c, r, front), [], io);
  }

  lemma TxsDoneParts(c: Ctx, r: Rows, ios: seq<IOTx>)
    ensures var firstTx, firstNote, firstOutput := NextId(r.txs), NextId(r.notes), NextId(r.outputs);
            TxsDone(c, r, ios) ==
            Rows(Append(r.txs, TxRows(c, ios)), Append(r.notes, NoteRows(c, firstTx, ios)),
                Append(r.outputs, OutputRows(c, firstTx, ios)),
                 Append(r.memos, MemoRows(c, firstTx, firstNote, firstOutput, ios)),
                 r.newTxs + IdMap(TxIds(ios), firstTx), r.newNotes + IdMap(NoteIds(FlatNotes(ios)), firstNote))
  {
  }

  lemma MapUnions(a: map<nat, nat>, b: map<nat, nat>, c: map<nat, nat>)
    ensures a + (b + c) == (a + b) + c
  {
  }

  lemma MapsAssociate(a: map<nat, nat>, b: map<nat, nat>, k: nat, v: nat)
    ensures a + b[k := v] == (a + b)[k := v]
  {
  }

  lemma IdsSnoc(front: seq<IOTx>, io: IOTx, firstTx: nat, firstNote: nat)
    ensures IdMap(TxIds(front + [io]), firstTx) == IdMap(TxIds(front), firstTx)[io.id := firstTx + |front|]
    ensures IdMap(NoteIds(FlatNotes(front + [io])), firstNote) ==
            IdMap(NoteIds(FlatNotes(front)), firstNote) + IdMap(NoteIds(io.notes), firstNote + |FlatNotes(front)|)
  {
    assert (front + [io])[..|front|] == front;
    assert TxIds(front + [io]) == TxIds(front) + [io.id];
    IdMapSnoc(TxIds(front), firstTx, io.id);
    assert NoteIds(FlatNotes(front) + io.notes) == NoteIds(FlatNotes(front)) + NoteIds(io.notes);
    IdMapAppend(NoteIds(FlatNotes(front)), NoteIds(io.notes), firstNote);
  }

  lemma FlatSnoc(c: Ctx, firstTx: nat, firstNote: nat, firstOutput: nat, front: seq<IOTx>, io: IOTx)
    ensures var ios := front + [io];
            && FlatNotes(ios) == FlatNotes(front) + io.notes && FlatOutputs(ios) == FlatOutputs(front) + io.outputs
            && NoteRows(c, firstTx, ios) == NoteRows(c, firstTx, front) + NoteRowsOf(c, firstTx + |front|, io.notes)
            && OutputRows(c, firstTx, ios) ==
                 OutputRows(c, firstTx, front) + OutputRowsOf(c, firstTx + |front|, io.outputs)
            && MemoRows(c, firstTx, firstNote, firstOutput, ios) == MemoRows(c, firstTx, firstNote, firstOutput, front)
               + MemosOf(c, firstTx + |front|, firstNote + |FlatNotes(front)|, firstOutput + |FlatOutputs(front)|, io)
  {
    assert (front + [io])[..|front|] == front;
  }

  lemma TxsFreeForNext(c: Ctx, r: Rows, front: seq<IOTx>, io: IOTx)
    requires FreshRows(c.account, r) && TxsOk(front + [io])
    ensures var r' := TxsDone(c, r, front);
            && !Taken(r'.txs, TxKey, TxRow(c, io))
            && NullifiersFree(c, r'.notes, io.notes) && DistinctNullifiers(io.notes)
            && MemosFree(NextId(r'.txs), r'.memos) && OutputsFree(NextId(r'.txs), r'.outputs) && TxOk(io)
  {
    var ios := front + [io];
    assert ios[..|front|] == front && ios[|front|] == io;
    var firstTx := NextId(r.txs);
    TxidsFree(c, r, front, io);
    NullifiersFreeForNext(c, r, front, io);
    NextIdAppend(r.txs, TxRows(c, front));
    RowCounts(c, firstTx, front);
    MemoRowsBelow(c, firstTx, NextId(r.notes), NextId(r.outputs), front);
    BelowNext(r.memos, MemoRows(c, firstTx, NextId(r.notes), NextId(r.outputs), front), (m: Memo) => m.tx, firstTx,
        firstTx + |front|);
    BelowNext(r.outputs, OutputRows(c, firstTx, front), (o: Output) => o.tx, firstTx, firstTx + |front|);
  }

  lemma BelowNext<T(!new)>(t: Table<T>, rows: seq<T>, tx: T -> nat, first: nat, next: nat)
    requires first <= next
    requires forall k | k in t :: tx(t[k]) < first
    requires forall i | 0 <= i < |rows| :: tx(rows[i]) < next
    ensures forall k | k in Append(t, rows) :: tx(Append(t, rows)[k]) < next
  {
    forall k | k in Append(t, rows)
      ensures tx(Append(t, rows)[k]) < next
    {
      AppendAt(t, rows, k);
    }
  }

  lemma TxidsFree(c: Ctx, r: Rows, front: seq<IOTx>, io: IOTx)
    requires FreshRows(c.account, r) && DistinctTxids(front + [io])
    ensures !Taken(TxsDone(c, r, front).txs, TxKey, TxRow(c, io))
  {
    var ios := front + [io];
    var rows := TxRows(c, front);
    forall i | 0 <= i < |rows|
      ensures TxKey(rows[i]) != TxKey(TxRow(c, io))
    {
      assert ios[i] == front[i] && ios[|front|] == io;
    }
    NotTakenAfter(r.txs, rows, TxKey, TxRow(c, io));
  }

  lemma NullifiersFreeForNext(c: Ctx, r: Rows, front: seq<IOTx>, io: IOTx)
    requires FreshRows(c.account, r) && DistinctNullifiers(FlatNotes(front + [io]))
    ensures NullifiersFree(c, TxsDone(c, r, front).notes, io.notes) && DistinctNullifiers(io.notes)
  {
    var firstTx := NextId(r.txs);
    RowCounts(c, firstTx, front);
    FlatSnoc(c, firstTx, 0, 0, front, io);
    var notes := TxsDone(c, r, front).notes;
    assert notes == Append(r.notes, NoteRows(c, firstTx, front));
    hide FlatNotes, NoteRows, NextId, TxsDone, Append, OutputRows, MemoRows, NoteRowsOf;
    DistinctParts(FlatNotes(front), io.notes);
    var rows := NoteRows(c, firstTx, front);
    forall k, i | k in notes && 0 <= i < |io.notes| && notes[k].account == c.account
      ensures notes[k].cols.nullifier != io.notes[i].cols.nullifier
    {
      AppendAt(r.notes, rows, k);
      assert rows[k - NextId(r.notes)].cols.nullifier == FlatNotes(front)[k - NextId(r.notes)].cols.nullifier;
    }
  }

  lemma DistinctParts(a: seq<IONote>, b: seq<IONote>)
    requires DistinctNullifiers(a + b)
    ensures DistinctNullifiers(b)
    ensures forall i, j | 0 <= i < |a| && 0 <= j < |b| :: a[i].cols.nullifier != b[j].cols.nullifier
  {
    var all := a + b;
    assert forall j | 0 <= j < |b| :: all[|a| + j] == b[j];
    assert forall i | 0 <= i < |a| :: all[i] == a[i];
  }

  /** With distinct keys in the record and a new account, the first pass goes through. */
  lemma {:induction false} TxsAdded(c: Ctx, r: Rows, ios: seq<IOTx>)
    requires FreshRows(c.account, r) && TxsOk(ios)
    ensures AddTxs(c, r, ios) == Some(TxsDone(c, r, ios))
  {
    hide TxsDone, TxDone, AddTx, FreshRows, TxOk;
    if ios == [] {
      NoTxsDone(c, r);
    } else {
      var front, io := ios[..|ios| - 1], ios[|ios| - 1];
      assert front + [io] == ios;
      TxsOkFront(front, io);
      TxsAdded(c, r, front);
      TxsFreeForNext(c, r, front, io);
      TxAdded(c, TxsDone(c, r, front), io);
      TxsDoneStep(c, r, front, io);
    }
  }

  lemma NoTxsDone(c: Ctx, r: Rows)
    ensures TxsDone(c, r, []) == r
  {
    AppendNothing(r.txs);
    AppendNothing(r.notes);
    AppendNothing(r.outputs);
    AppendNothing(r.memos);
    assert TxRows(c, []) == [] && TxIds([]) == [] && NoteIds(FlatNotes([])) == [];
    assert r.newTxs + map[] == r.newTxs && r.newNotes + map[] == r.newNotes;
  }

  lemma TxsOkFront(front: seq<IOTx>, io: IOTx)
    requires TxsOk(front + [io])
    ensures TxsOk(front)
  {
    var ios := front + [io];
    assert ios[..|front|] == front;
    assert forall i | 0 <= i < |front| :: ios[i] == front[i];
    var all := FlatNotes(ios);
    assert all == FlatNotes(front) + io.notes;
    assert forall k | 0 <= k < |FlatNotes(front)| :: all[k] == FlatNotes(front)[k];
  }

  // ---------------------------------------------------------------------
  // The second pass: spends
  // ---------------------------------------------------------------------

  /** Every spend with the old id of its transaction. */
  function FlatSpends(ios: seq<IOTx>): seq<(nat, IOSpend)> {
    if ios == [] then []
    else FlatSpends(ios[..|ios| - 1]) + Tagged(ios[|ios| - 1].id, ios[|ios| - 1].spends)
  }

  function Tagged(tx: nat, ss: seq<IOSpend>): seq<(nat, IOSpend)> {
    seq(|ss|, i requires 0 <= i < |ss| => (tx, ss[i]))
  }

  ghost predicate Injective(m: map<nat, nat>) {
    forall i, j | i in m && j in m && m[i] == m[j] :: i == j
  }

  /** Every look-up succeeds, no note is spent twice, and no restored note has a stored spend. */
  ghost predicate SpendsResolve(newTxs: map<nat, nat>, newNotes: map<nat, nat>, t: Table<Spend>,
          flat: seq<(nat, IOSpend)>) {
    && (forall i | 0 <= i < |flat| ::
         flat[i].0 in newTxs && flat[i].1.idNote in newNotes && newNotes[flat[i].1.idNote] !in t)
    && (forall i, j | 0 <= i < j < |flat| :: flat[i].1.idNote != flat[j].1.idNote)
  }

  function SpendRow(c: Ctx, newTx: nat, s: IOSpend): Spend {
    Spend(c.account, newTx, s.height, s.pool, AsI64(s.value))
  }

  ghost predicate SpendsRestored(c: Ctx, newTxs: map<nat, nat>, newNotes: map<nat, nat>, t: Table<Spend>,
          flat: seq<(nat, IOSpend)>, t': Table<Spend>) {
    && (forall k | k in t :: k in t' && t'[k] == t[k])
    && (forall k | k in t' && k !in t ::
         exists i :: 0 <= i < |flat| && flat[i].1.idNote in newNotes && k == newNotes[flat[i].1.idNote])
    && (forall i | 0 <= i < |flat| :: flat[i].0 in newTxs && flat[i].1.idNote in newNotes
                                      && newNotes[flat[i].1.idNote] in t'
                                      && t'[newNotes[flat[i].1.idNote]] == SpendRow(c, newTxs[flat[i].0], flat[i].1))
  }

  lemma SpendStep(c: Ctx, newTxs: map<nat, nat>, newNotes: map<nat, nat>, t: Table<Spend>, flat: seq<(nat, IOSpend)>,
          t': Table<Spend>, tx: nat, s: IOSpend)
    requires Injective(newNotes) && SpendsResolve(newTxs, newNotes, t, flat + [(tx, s)])
    requires SpendsRestored(c, newTxs, newNotes, t, flat, t')
    ensures tx in newTxs && AddSpend(c, newTxs[tx], newNotes, t', s).Some?
    ensures SpendsRestored(c, newTxs, newNotes, t, flat + [(tx, s)], AddSpend(c, newTxs[tx], newNotes, t', s).value)
  {
    var all := flat + [(tx, s)];
    assert all[|flat|] == (tx, s);
    var k := newNotes[s.idNote];
    forall i | 0 <= i < |flat|
      ensures newNotes[flat[i].1.idNote] != k
    {
      assert all[i] == flat[i];
    }
    assert k !in t';
    var t2 := t'[k := SpendRow(c, newTxs[tx], s)];
    forall x | x in t2 && x !in t
      ensures exists i :: 0 <= i < |all| && all[i].1.idNote in newNotes && x == newNotes[all[i].1.idNote]
    {
      if x == k {
        assert all[|flat|].1.idNote == s.idNote;
      } else {
        var i :| 0 <= i < |flat| && flat[i].1.idNote in newNotes && x == newNotes[flat[i].1.idNote];
        assert all[i] == flat[i];
      }
    }
    forall i | 0 <= i < |all|
      ensures newNotes[all[i].1.idNote] in t2
              && t2[newNotes[all[i].1.idNote]] == SpendRow(c, newTxs[all[i].0], all[i].1)
    {
      if i < |flat| {
        assert all[i] == flat[i];
      }
    }
  }

  lemma ResolvePrefix(newTxs: map<nat, nat>, newNotes: map<nat, nat>, t: Table<Spend>, front: seq<(nat, IOSpend)>,
          rest: seq<(nat, IOSpend)>)
    requires SpendsResolve(newTxs, newNotes, t, front + rest)
    ensures SpendsResolve(newTxs, newNotes, t, front)
  {
    assert forall i | 0 <= i < |front| :: (front + rest)[i] == front[i];
  }

  lemma {:induction false} SpendsOfTxAdded(c: Ctx, newTxs: map<nat, nat>, newNotes: map<nat, nat>, t: Table<Spend>,
          flat: seq<(nat, IOSpend)>, t0: Table<Spend>, tx: nat, ss: seq<IOSpend>)
    requires Injective(newNotes) && SpendsResolve(newTxs, newNotes, t, flat + Tagged(tx, ss)) && tx in newTxs
    requires SpendsRestored(c, newTxs, newNotes, t, flat, t0)
    ensures AddSpends(c, newTxs[tx], newNotes, t0, ss).Some?
    ensures SpendsRestored(c, newTxs, newNotes, t, flat + Tagged(tx, ss),
                AddSpends(c, newTxs[tx], newNotes, t0, ss).value)
  {
    hide SpendsRestored, SpendsResolve, Injective, AddSpend;
    if ss == [] {
      assert flat + Tagged(tx, []) == flat;
    } else {
      var front, last := ss[..|ss| - 1], ss[|ss| - 1];
      var done := flat + Tagged(tx, front);
      assert flat + Tagged(tx, ss) == done + [(tx, last)];
      ResolvePrefix(newTxs, newNotes, t, done, [(tx, last)]);
      SpendsOfTxAdded(c, newTxs, newNotes, t, flat, t0, tx, front);
      SpendStep(c, newTxs, newNotes, t, done, AddSpends(c, newTxs[tx], newNotes, t0, front).value, tx, last);
    }
  }

  lemma {:induction false} SpendsAdded(c: Ctx, newTxs: map<nat, nat>, newNotes: map<nat, nat>, t: Table<Spend>,
          ios: seq<IOTx>)
    requires Injective(newNotes) && SpendsResolve(newTxs, newNotes, t, FlatSpends(ios))
    requires forall i | 0 <= i < |ios| :: ios[i].id in newTxs
    ensures AddAllSpends(c, newTxs, newNotes, t, ios).Some?
    ensures SpendsRestored(c, newTxs, newNotes, t, FlatSpends(ios), AddAllSpends(c, newTxs, newNotes, t, ios).value)
  {
    hide SpendsResolve, Injective, AddSpends, Tagged;
    if ios != [] {
      var front, io := ios[..|ios| - 1], ios[|ios| - 1];
      ResolvePrefix(newTxs, newNotes, t, FlatSpends(front), Tagged(io.id, io.spends));
      SpendsAdded(c, newTxs, newNotes, t, front);
      hide SpendsRestored;
      SpendsOfTxAdded(c, newTxs, newNotes, t, FlatSpends(front), AddAllSpends(c, newTxs, newNotes, t, front).value,
          io.id, io.spends);
    }
  }

  // ---------------------------------------------------------------------
  // The second pass: user memos
  // ---------------------------------------------------------------------

  /** The keys the restored user memos take are free. */
  ghost predicate UserMemosFit(c: Ctx, newTxs: map<nat, nat>, t: map<(nat, nat), string>, us: seq<IOUserMemo>) {
    forall i | 0 <= i < |us| && us[i].idTx in newTxs :: (c.account, newTxs[us[i].idTx]) !in t
  }

  ghost predicate UserMemosRestored(c: Ctx, newTxs: map<nat, nat>, t: map<(nat, nat), string>, us: seq<IOUserMemo>,
          t': map<(nat, nat), string>) {
    && (forall k | k in t :: k in t' && t'[k] == t[k])
    && (forall k | k in t' && k !in t ::
         exists i :: 0 <= i < |us| && us[i].idTx in newTxs && k == (c.account, newTxs[us[i].idTx]))
    && (forall i | 0 <= i < |us| && us[i].idTx in newTxs ::
         (c.account, newTxs[us[i].idTx]) in t' && t'[(c.account, newTxs[us[i].idTx])] == us[i].memo)
  }

  lemma {:induction false} UserMemosAdded(c: Ctx, newTxs: map<nat, nat>, t: map<(nat, nat), string>,
          us: seq<IOUserMemo>)
    requires Injective(newTxs) && NoDup(UserMemoTxs(us))
    ensures AddUserMemos(c, newTxs, t, us).Some? <==> UserMemosFit(c, newTxs, t, us)
    ensures UserMemosFit(c, newTxs, t, us) ==> UserMemosRestored(c, newTxs, t, us, AddUserMemos(c, newTxs, t, us).value)
  {
    if us != [] {
      var front, u := us[..|us| - 1], us[|us| - 1];
      assert forall i | 0 <= i < |front| :: front[i] == us[i] && UserMemoTxs(us)[i] == front[i].idTx;
      assert UserMemoTxs(front) == UserMemoTxs(us)[..|front|];
      UserMemosAdded(c, newTxs, t, front);
      if AddUserMemos(c, newTxs, t, front).Some? && u.idTx in newTxs {
        UserMemoStep(c, newTxs, t, us);
      }
    }
  }

  lemma UserMemoStep(c: Ctx, newTxs: map<nat, nat>, t: map<(nat, nat), string>, us: seq<IOUserMemo>)
    requires us != [] && Injective(newTxs) && NoDup(UserMemoTxs(us)) && us[|us| - 1].idTx in newTxs
    requires AddUserMemos(c, newTxs, t, us[..|us| - 1]).Some?
    requires UserMemosRestored(c, newTxs, t, us[..|us| - 1], AddUserMemos(c, newTxs, t, us[..|us| - 1]).value)
    ensures var t' := AddUserMemos(c, newTxs, t, us[..|us| - 1]).value;
            var k := (c.account, newTxs[us[|us| - 1].idTx]);
            && (k in t' <==> k in t)
            && (k !in t ==> UserMemosRestored(c, newTxs, t, us, t'[k := us[|us| - 1].memo]))
  {
    var front, u := us[..|us| - 1], us[|us| - 1];
    var t' := AddUserMemos(c, newTxs, t, front).value;
    hide AddUserMemos;
    var k := (c.account, newTxs[u.idTx]);
    forall i | 0 <= i < |front|
      ensures front[i] == us[i] && us[i].idTx != u.idTx
    {
      assert UserMemoTxs(us)[i] != UserMemoTxs(us)[|front|];
    }
    if k !in t {
      assert k !in t';
      var t2 := t'[k := u.memo];
      forall x | x in t2 && x !in t
        ensures exists i :: 0 <= i < |us| && us[i].idTx in newTxs && x == (c.account, newTxs[us[i].idTx])
      {
        if x == k {
          assert us[|front|] == u;
        } else {
          var i :| 0 <= i < |front| && front[i].idTx in newTxs && x == (c.account, newTxs[front[i].idTx]);
          assert us[i] == front[i];
        }
      }
    }
  }

  // ---------------------------------------------------------------------
  // Checkpoints
  // ---------------------------------------------------------------------

  function FlatWitnesses(bs: seq<IOBlock>): seq<IOWitness> {
    if bs == [] then [] else FlatWitnesses(bs[..|bs| - 1]) + bs[|bs| - 1].witnesses
  }

  function WitnessRow(c: Ctx, newNotes: map<nat, nat>, w: IOWitness): Witness {
    Witness(c.account, if w.note in newNotes then newNotes[w.note] else 0, w.height, w.data)
  }

  function WitnessRows(c: Ctx, newNotes: map<nat, nat>, ws: seq<IOWitness>): seq<Witness> {
    seq(|ws|, i requires 0 <= i < |ws| => WitnessRow(c, newNotes, ws[i]))
  }

  ghost predicate WitnessesResolve(newNotes: map<nat, nat>, t: Table<Witness>, ws: seq<IOWitness>) {
    && (forall i | 0 <= i < |ws| :: ws[i].note in newNotes)
    && (forall i, j | 0 <= i < j < |ws| :: (ws[i].note, ws[i].height) != (ws[j].note, ws[j].height))
    && (forall k, n | k in t && n in newNotes :: t[k].note != newNotes[n])
  }

  lemma WitnessStep(c: Ctx, newNotes: map<nat, nat>, t: Table<Witness>, ws: seq<IOWitness>, w: IOWitness)
    requires Injective(newNotes) && WitnessesResolve(newNotes, t, ws + [w])
    ensures AddWitness(c, newNotes, Append(t, WitnessRows(c, newNotes, ws)), w) ==
              Some(Append(t, WitnessRows(c, newNotes, ws + [w])))
    ensures WitnessesResolve(newNotes, t, ws)
  {
    var all, rows, row := ws + [w], WitnessRows(c, newNotes, ws), WitnessRow(c, newNotes, w);
    assert all[|ws|] == w && forall i | 0 <= i < |ws| :: all[i] == ws[i];
    forall i | 0 <= i < |rows|
      ensures WitnessKey(rows[i]) != WitnessKey(row)
    {
      assert all[i] == ws[i];
    }
    hide Append, NextId;
    NotTakenAfter(t, rows, WitnessKey, row);
    AppendAppend(t, rows, [row]);
    assert WitnessRows(c, newNotes, all) == rows + [row];
  }

  lemma ResolveFront(newNotes: map<nat, nat>, t: Table<Witness>, front: seq<IOWitness>, rest: seq<IOWitness>)
    requires WitnessesResolve(newNotes, t, front + rest)
    ensures WitnessesResolve(newNotes, t, front)
  {
    assert forall i | 0 <= i < |front| :: (front + rest)[i] == front[i];
  }

  lemma {:induction false} WitnessesAdded(c: Ctx, newNotes: map<nat, nat>, t: Table<Witness>, before: seq<IOWitness>,
          ws: seq<IOWitness>)
    requires Injective(newNotes) && WitnessesResolve(newNotes, t, before + ws)
    ensures AddWitnesses(c, newNotes, Append(t, WitnessRows(c, newNotes, before)), ws) ==
              Some(Append(t, WitnessRows(c, newNotes, before + ws)))
  {
    hide Append, NextId, WitnessesResolve, AddWitness, WitnessRows, Injective;
    if ws == [] {
      assert before + [] == before;
    } else {
      var front, w := ws[..|ws| - 1], ws[|ws| - 1];
      assert before + ws == (before + front) + [w];
      WitnessStep(c, newNotes, t, before + front, w);
      WitnessesAdded(c, newNotes, t, before, front);
    }
  }

  lemma {:induction false} BlocksAdded(c: Ctx, newNotes: map<nat, nat>, t: Table<Witness>, bs: seq<IOBlock>)
    requires Injective(newNotes) && WitnessesResolve(newNotes, t, FlatWitnesses(bs))
    ensures AddBlocks(c, newNotes, t, bs) == Some(Append(t, WitnessRows(c, newNotes, FlatWitnesses(bs))))
  {
    hide Append, NextId, WitnessesResolve, AddWitnesses, Injective;
    if bs == [] {
      AppendNothing(t);
      assert WitnessRows(c, newNotes, []) == [];
    } else {
      var front, b := bs[..|bs| - 1], bs[|bs| - 1];
      ResolveFront(newNotes, t, FlatWitnesses(front), b.witnesses);
      BlocksAdded(c, newNotes, t, front);
      WitnessesAdded(c, newNotes, t, FlatWitnesses(front), b.witnesses);
    }
  }

  lemma {:induction false} HeadersAdded(t: Table<Header>, bs: seq<IOBlock>)
    ensures forall k :: k in AddHeaders(t, bs) <==> k in t || k in BlockHeights(bs)
    ensures forall k | k in t :: AddHeaders(t, bs)[k] == t[k]
    ensures NoDup(BlockHeights(bs)) ==> forall i | 0 <= i < |bs| && bs[i].height !in t ::
              bs[i].height in AddHeaders(t, bs) && AddHeaders(t, bs)[bs[i].height] == bs[i].header
  {
    if bs != [] {
      var front, b := bs[..|bs| - 1], bs[|bs| - 1];
      HeadersAdded(t, front);
      var hs := BlockHeights(bs);
      assert hs == BlockHeights(front) + [b.height] && hs[..|front|] == BlockHeights(front);
      if NoDup(hs) {
        forall i | 0 <= i < |front|
          ensures bs[i] == front[i] && bs[i].height == hs[i] != b.height
        {
          assert hs[i] != hs[|front|];
        }
        assert b.height !in BlockHeights(front);
      }
    }
  }
}
