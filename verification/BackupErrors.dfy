/**
 Records no export of this version gives: what an import of any of them still guarantees.
 */
module BackupErrors {
  import opened Wrappers
  import opened Tables
  import opened Schema
  import opened Backup
  import opened BackupExport
  import opened BackupFold
  import opened BackupRoundTrip

  // ---------------------------------------------------------------------
  // Closed records
  // ---------------------------------------------------------------------

  ghost predicate BytesPresent(ns: seq<IONote>) {
    forall i | 0 <= i < |ns| && ns[i].vout.Some? :: ns[i].memoBytes.Some?
  }

  ghost predicate SpendsNamed(ss: seq<IOSpend>, notes: set<nat>) {
    forall i | 0 <= i < |ss| :: ss[i].idNote in notes
  }

  ghost predicate WitnessesNamed(ws: seq<IOWitness>, notes: set<nat>) {
    forall i | 0 <= i < |ws| :: ws[i].note in notes
  }

  /** The ids of the notes of a record. */
  function NotesNamed(ios: seq<IOTx>): set<nat> {
    set n | n in NoteIds(FlatNotes(ios))
  }

  /** Spends and witnesses name notes of the record, in any transaction of it, and memos have bytes. */
  ghost predicate Closed(io: IOAccount) {
    && (forall i | 0 <= i < |io.txs| ::
          BytesPresent(io.txs[i].notes) && SpendsNamed(io.txs[i].spends, NotesNamed(io.txs)))
    && (forall i | 0 <= i < |io.blocks| :: WitnessesNamed(io.blocks[i].witnesses, NotesNamed(io.txs)))
  }

  lemma {:induction false} NotesAreNamed(c: Ctx, newTx: nat, r: Rows, ns: seq<IONote>)
    requires AddNotes(c, newTx, r, ns).Some?
    ensures BytesPresent(ns)
    ensures AddNotes(c, newTx, r, ns).value.newNotes.Keys == r.newNotes.Keys + set n | n in NoteIds(ns)
  {
    hide AddNote, BytesPresent, NoteIds;
    if ns == [] {
      NoNotes();
    } else {
      var front, n := ns[..|ns| - 1], ns[|ns| - 1];
      NotesAreNamed(c, newTx, r, front);
      NoteIsNamed(c, newTx, AddNotes(c, newTx, r, front).value, n);
      OneMoreNote(front, n);
      assert ns == front + [n];
    }
  }

  lemma NoNotes()
    ensures BytesPresent([]) && NoteIds([]) == []
  {
  }

  lemma OneMoreNote(front: seq<IONote>, n: IONote)
    requires BytesPresent(front) && (n.vout.Some? ==> n.memoBytes.Some?)
    ensures BytesPresent(front + [n]) && NoteIds(front + [n]) == NoteIds(front) + [n.id]
  {
  }

  lemma NoteIsNamed(c: Ctx, newTx: nat, r: Rows, n: IONote)
    requires AddNote(c, newTx, r, n).Some?
    ensures n.vout.Some? ==> n.memoBytes.Some?
    ensures AddNote(c, newTx, r, n).value.newNotes.Keys == r.newNotes.Keys + {n.id}
  {
    hide Append, NextId;
  }

  lemma {:induction false} OutputsNameNothing(c: Ctx, newTx: nat, r: Rows, os: seq<IOOutput>)
    requires AddOutputs(c, newTx, r, os).Some?
    ensures AddOutputs(c, newTx, r, os).value.newNotes == r.newNotes
  {
    if os != [] {
      OutputsNameNothing(c, newTx, r, os[..|os| - 1]);
    }
  }

  lemma {:induction false} TxsAreNamed(c: Ctx, r: Rows, ios: seq<IOTx>)
    requires AddTxs(c, r, ios).Some?
    ensures forall i | 0 <= i < |ios| :: BytesPresent(ios[i].notes)
    ensures AddTxs(c, r, ios).value.newNotes.Keys == r.newNotes.Keys + NotesNamed(ios)
  {
    hide AddTxRow, AddNotes, AddOutputs, BytesPresent;
    if ios != [] {
      var front, io := ios[..|ios| - 1], ios[|ios| - 1];
      TxsAreNamed(c, r, front);
      TxIsNamed(c, AddTxs(c, r, front).value, io);
      assert NoteIds(FlatNotes(ios)) == NoteIds(FlatNotes(front)) + NoteIds(io.notes);
      assert forall i | 0 <= i < |front| :: ios[i] == front[i];
    }
  }

  lemma TxIsNamed(c: Ctx, r: Rows, io: IOTx)
    requires AddTx(c, r, io).Some?
    ensures BytesPresent(io.notes)
    ensures AddTx(c, r, io).value.newNotes.Keys == r.newNotes.Keys + set n | n in NoteIds(io.notes)
  {
    hide AddNotes, AddOutputs, BytesPresent;
    var r1 := AddTxRow(c, r, io).value;
    NotesAreNamed(c, NextId(r.txs), r1, io.notes);
    OutputsNameNothing(c, NextId(r.txs), AddNotes(c, NextId(r.txs), r1, io.notes).value, io.outputs);
  }

  lemma {:induction false} SpendsAreNamed(c: Ctx, newTx: nat, newNotes: map<nat, nat>, t: Table<Spend>,
          ss: seq<IOSpend>)
    requires AddSpends(c, newTx, newNotes, t, ss).Some?
    ensures SpendsNamed(ss, newNotes.Keys)
  {
    if ss != [] {
      SpendsAreNamed(c, newTx, newNotes, t, ss[..|ss| - 1]);
      assert forall i | 0 <= i < |ss| - 1 :: ss[..|ss| - 1][i] == ss[i];
    }
  }

  lemma {:induction false} AllSpendsAreNamed(c: Ctx, newTxs: map<nat, nat>, newNotes: map<nat, nat>,
          t: Table<Spend>, ios: seq<IOTx>)
    requires AddAllSpends(c, newTxs, newNotes, t, ios).Some?
    ensures forall i | 0 <= i < |ios| :: SpendsNamed(ios[i].spends, newNotes.Keys)
  {
    hide AddSpends, SpendsNamed;
    if ios != [] {
      var front, io := ios[..|ios| - 1], ios[|ios| - 1];
      AllSpendsAreNamed(c, newTxs, newNotes, t, front);
      SpendsAreNamed(c, newTxs[io.id], newNotes, AddAllSpends(c, newTxs, newNotes, t, front).value, io.spends);
      assert forall i | 0 <= i < |front| :: front[i] == ios[i];
    }
  }

  lemma {:induction false} WitnessesAreNamed(c: Ctx, newNotes: map<nat, nat>, t: Table<Witness>, ws: seq<IOWitness>)
    requires AddWitnesses(c, newNotes, t, ws).Some?
    ensures WitnessesNamed(ws, newNotes.Keys)
  {
    if ws != [] {
      WitnessesAreNamed(c, newNotes, t, ws[..|ws| - 1]);
      assert forall i | 0 <= i < |ws| - 1 :: ws[..|ws| - 1][i] == ws[i];
    }
  }

  lemma {:induction false} BlocksAreNamed(c: Ctx, newNotes: map<nat, nat>, t: Table<Witness>, bs: seq<IOBlock>)
    requires AddBlocks(c, newNotes, t, bs).Some?
    ensures forall i | 0 <= i < |bs| :: WitnessesNamed(bs[i].witnesses, newNotes.Keys)
  {
    hide AddWitnesses, WitnessesNamed;
    if bs != [] {
      var front, b := bs[..|bs| - 1], bs[|bs| - 1];
      BlocksAreNamed(c, newNotes, t, front);
      WitnessesAreNamed(c, newNotes, AddBlocks(c, newNotes, t, front).value, b.witnesses);
      assert forall i | 0 <= i < |front| :: front[i] == bs[i];
    }
  }

  /**
   Whatever the record and the database: an import that succeeds had no reference to resolve outside
   the record. A spend or a witness of a note that is not there, or a memo without bytes, aborts it.
   */
  lemma ImportedIsClosed(d: Db, io: IOAccount, d': Db, c: Ctx, r: Rows)
    requires Imported(d, io, d', c, r)
    ensures Closed(io)
  {
    hide *;
    ImportedParts(d, io, d', c, r);
    HistoryParts(d, io, d', c, r);
    NothingNamed(d);
    TxsAreNamed(c, Before(d), io.txs);
    AllSpendsAreNamed(c, r.newTxs, r.newNotes, d.spends, io.txs);
    BlocksAreNamed(c, r.newNotes, d.witnesses, io.blocks);
    assert r.newNotes.Keys == NotesNamed(io.txs);
    ClosedIs(io);
  }

  lemma NothingNamed(d: Db)
    ensures Before(d).newNotes.Keys == {}
  {
  }

  lemma ClosedIs(io: IOAccount)
    requires forall i | 0 <= i < |io.txs| ::
               BytesPresent(io.txs[i].notes) && SpendsNamed(io.txs[i].spends, NotesNamed(io.txs))
    requires forall i | 0 <= i < |io.blocks| :: WitnessesNamed(io.blocks[i].witnesses, NotesNamed(io.txs))
    ensures Closed(io)
  {
    hide BytesPresent, SpendsNamed, WitnessesNamed, NotesNamed;
  }

  // ---------------------------------------------------------------------
  // Nothing is dropped
  // ---------------------------------------------------------------------

  function NoteMemoCount(ns: seq<IONote>): nat {
    if ns == [] then 0 else NoteMemoCount(ns[..|ns| - 1]) + if ns[|ns| - 1].vout.Some? then 1 else 0
  }

  function OutputMemoCount(os: seq<IOOutput>): nat {
    if os == [] then 0 else OutputMemoCount(os[..|os| - 1]) + if os[|os| - 1].memoBytes.Some? then 1 else 0
  }

  function NoteCount(ios: seq<IOTx>): nat {
    if ios == [] then 0 else NoteCount(ios[..|ios| - 1]) + |ios[|ios| - 1].notes|
  }

  function OutputCount(ios: seq<IOTx>): nat {
    if ios == [] then 0 else OutputCount(ios[..|ios| - 1]) + |ios[|ios| - 1].outputs|
  }

  function SpendCount(ios: seq<IOTx>): nat {
    if ios == [] then 0 else SpendCount(ios[..|ios| - 1]) + |ios[|ios| - 1].spends|
  }

  function MemoCount(ios: seq<IOTx>): nat {
    if ios == [] then 0
    else
      MemoCount(ios[..|ios| - 1]) + NoteMemoCount(ios[|ios| - 1].notes) + OutputMemoCount(ios[|ios| - 1].outputs)
  }

  function WitnessCount(bs: seq<IOBlock>): nat {
    if bs == [] then 0 else WitnessCount(bs[..|bs| - 1]) + |bs[|bs| - 1].witnesses|
  }

  lemma OneMoreRow<T>(t: Table<T>, row: T)
    ensures |Append(t, [row])| == |t| + 1
  {
    AppendOne(t, row);
  }

  /** `r'` has so many rows more than `r`. */
  ghost predicate Longer(r: Rows, r': Rows, txs: nat, notes: nat, outputs: nat, memos: nat) {
    && |r'.txs| == |r.txs| + txs && |r'.notes| == |r.notes| + notes && |r'.outputs| == |r.outputs| + outputs
    && |r'.memos| == |r.memos| + memos
  }

  lemma OneMoreMemo(r: Rows, m: Memo)
    requires AddMemo(r, m).Some?
    ensures Longer(r, AddMemo(r, m).value, 0, 0, 0, 1)
  {
    hide Append;
    OneMoreRow(r.memos, m);
  }

  lemma OneMoreNoteRow(c: Ctx, newTx: nat, r: Rows, n: IONote)
    requires AddNote(c, newTx, r, n).Some?
    ensures Longer(r, AddNote(c, newTx, r, n).value, 0, 1, 0, if n.vout.Some? then 1 else 0)
  {
    hide Append, NextId, AddMemo, NoteRow, NoteMemo, Taken;
    var row, id := NoteRow(c, newTx, n), NextId(r.notes);
    OneMoreRow(r.notes, row);
    if n.vout.Some? {
      OneMoreMemo(r.(notes := Append(r.notes, [row]), newNotes := r.newNotes[n.id := id]), NoteMemo(c, newTx, id, n));
    }
  }

  lemma OneMoreOutput(c: Ctx, newTx: nat, r: Rows, o: IOOutput)
    requires AddOutput(c, newTx, r, o).Some?
    ensures Longer(r, AddOutput(c, newTx, r, o).value, 0, 0, 1, if o.memoBytes.Some? then 1 else 0)
  {
    hide Append, NextId, AddMemo, OutputRow, OutputMemo, Taken;
    var row := OutputRow(c, newTx, o);
    OneMoreRow(r.outputs, row);
    if o.memoBytes.Some? {
      OneMoreMemo(r.(outputs := Append(r.outputs, [row])), OutputMemo(c, newTx, NextId(r.outputs), o));
    }
  }

  lemma {:induction false} MoreNotes(c: Ctx, newTx: nat, r: Rows, ns: seq<IONote>)
    requires AddNotes(c, newTx, r, ns).Some?
    ensures Longer(r, AddNotes(c, newTx, r, ns).value, 0, |ns|, 0, NoteMemoCount(ns))
  {
    hide AddNote;
    if ns != [] {
      var front, n := ns[..|ns| - 1], ns[|ns| - 1];
      MoreNotes(c, newTx, r, front);
      OneMoreNoteRow(c, newTx, AddNotes(c, newTx, r, front).value, n);
    }
  }

  lemma {:induction false} MoreOutputs(c: Ctx, newTx: nat, r: Rows, os: seq<IOOutput>)
    requires AddOutputs(c, newTx, r, os).Some?
    ensures Longer(r, AddOutputs(c, newTx, r, os).value, 0, 0, |os|, OutputMemoCount(os))
  {
    hide AddOutput;
    if os != [] {
      var front, o := os[..|os| - 1], os[|os| - 1];
      MoreOutputs(c, newTx, r, front);
      OneMoreOutput(c, newTx, AddOutputs(c, newTx, r, front).value, o);
    }
  }

  lemma {:induction false} MoreTxs(c: Ctx, r: Rows, ios: seq<IOTx>)
    requires AddTxs(c, r, ios).Some?
    ensures Longer(r, AddTxs(c, r, ios).value, |ios|, NoteCount(ios), OutputCount(ios), MemoCount(ios))
  {
    hide AddTx;
    if ios != [] {
      var front, io := ios[..|ios| - 1], ios[|ios| - 1];
      MoreTxs(c, r, front);
      OneMoreTx(c, AddTxs(c, r, front).value, io);
    }
  }

  lemma OneMoreTx(c: Ctx, r: Rows, io: IOTx)
    requires AddTx(c, r, io).Some?
    ensures Longer(r, AddTx(c, r, io).value, 1, |io.notes|, |io.outputs|,
                NoteMemoCount(io.notes) + OutputMemoCount(io.outputs))
  {
    hide Append, AddNotes, AddOutputs, NextId, TxRow, Taken;
    OneMoreRow(r.txs, TxRow(c, io));
    var r1 := AddTxRow(c, r, io).value;
    MoreNotes(c, NextId(r.txs), r1, io.notes);
    MoreOutputs(c, NextId(r.txs), AddNotes(c, NextId(r.txs), r1, io.notes).value, io.outputs);
  }

  lemma {:induction false} MoreSpends(c: Ctx, newTx: nat, newNotes: map<nat, nat>, t: Table<Spend>, ss: seq<IOSpend>)
    requires AddSpends(c, newTx, newNotes, t, ss).Some?
    ensures |AddSpends(c, newTx, newNotes, t, ss).value| == |t| + |ss|
  {
    if ss != [] {
      MoreSpends(c, newTx, newNotes, t, ss[..|ss| - 1]);
    }
  }

  lemma {:induction false} MoreAllSpends(c: Ctx, newTxs: map<nat, nat>, newNotes: map<nat, nat>, t: Table<Spend>,
          ios: seq<IOTx>)
    requires AddAllSpends(c, newTxs, newNotes, t, ios).Some?
    ensures |AddAllSpends(c, newTxs, newNotes, t, ios).value| == |t| + SpendCount(ios)
  {
    hide AddSpends;
    if ios != [] {
      var front, io := ios[..|ios| - 1], ios[|ios| - 1];
      MoreAllSpends(c, newTxs, newNotes, t, front);
      MoreSpends(c, newTxs[io.id], newNotes, AddAllSpends(c, newTxs, newNotes, t, front).value, io.spends);
    }
  }

  lemma {:induction false} MoreWitnesses(c: Ctx, newNotes: map<nat, nat>, t: Table<Witness>, ws: seq<IOWitness>)
    requires AddWitnesses(c, newNotes, t, ws).Some?
    ensures |AddWitnesses(c, newNotes, t, ws).value| == |t| + |ws|
  {
    hide Append, Taken;
    if ws != [] {
      var front, w := ws[..|ws| - 1], ws[|ws| - 1];
      MoreWitnesses(c, newNotes, t, front);
      OneMoreRow(AddWitnesses(c, newNotes, t, front).value, Witness(c.account, newNotes[w.note], w.height, w.data));
    }
  }

  lemma {:induction false} MoreBlocks(c: Ctx, newNotes: map<nat, nat>, t: Table<Witness>, bs: seq<IOBlock>)
    requires AddBlocks(c, newNotes, t, bs).Some?
    ensures |AddBlocks(c, newNotes, t, bs).value| == |t| + WitnessCount(bs)
  {
    hide AddWitnesses;
    if bs != [] {
      var front, b := bs[..|bs| - 1], bs[|bs| - 1];
      MoreBlocks(c, newNotes, t, front);
      MoreWitnesses(c, newNotes, AddBlocks(c, newNotes, t, front).value, b.witnesses);
    }
  }

  lemma {:induction false} MoreTaddrs(account: nat, t: Table<Taddr>, ios: seq<IOTaddr>)
    requires AddTaddrs(account, t, ios).Some?
    ensures |AddTaddrs(account, t, ios).value| == |t| + |ios|
  {
    hide Append, Taken, TaddrRow;
    if ios != [] {
      var front, io := ios[..|ios| - 1], ios[|ios| - 1];
      MoreTaddrs(account, t, front);
      OneMoreRow(AddTaddrs(account, t, front).value, TaddrRow(account, io));
    }
  }

  lemma {:induction false} MoreSyncHeights(account: nat, t: map<(nat, nat), nat>, ss: seq<IOSync>)
    requires AddSyncHeights(account, t, ss).Some?
    ensures |AddSyncHeights(account, t, ss).value| == |t| + |ss|
  {
    if ss != [] {
      MoreSyncHeights(account, t, ss[..|ss| - 1]);
    }
  }

  lemma OneMoreFolder(d: Db, io: IOAccount, d': Db, c: Ctx)
    requires ImportedAccount(d, io, d', c)
    ensures |d'.folders| == |d.folders| + (if io.folder == "" then 0 else 1) && Extends(d.folders, d'.folders)
  {
    hide AddTaddrs, AddSyncHeights, AddKeys, NextId, Append;
    if io.folder != "" {
      OneMoreRow(d.folders, io.folder);
      assert Extends(d.folders, Append(d.folders, [io.folder]));
    }
  }

  function KeyCount(keys: Option<Keys>): nat { if keys.Some? then 1 else 0 }

  lemma MoreKeys(t: Table<Keys>, account: nat, keys: Option<Keys>)
    ensures AddKeys(t, account, keys).Some? ==> |AddKeys(t, account, keys).value| == |t| + KeyCount(keys)
  {
  }

  /**
   Whatever the record and the database: an import that succeeds has added exactly one row for each
   row of the record. A row that collides with a stored one or with another of the record is never
   skipped or overwritten; it aborts the import.
   */
  lemma NothingIsDropped(d: Db, io: IOAccount, d': Db, c: Ctx, r: Rows)
    requires Imported(d, io, d', c, r)
    ensures |d'.txs| == |d.txs| + |io.txs| && |d'.notes| == |d.notes| + NoteCount(io.txs)
    ensures |d'.outputs| == |d.outputs| + OutputCount(io.txs) && |d'.memos| == |d.memos| + MemoCount(io.txs)
    ensures |d'.spends| == |d.spends| + SpendCount(io.txs)
    ensures |d'.witnesses| == |d.witnesses| + WitnessCount(io.blocks)
    ensures |d'.taddrs| == |d.taddrs| + |io.taddrs| && |d'.syncHeights| == |d.syncHeights| + |io.syncHeights|
    ensures |d'.tkeys| == |d.tkeys| + KeyCount(io.tkeys) && |d'.skeys| == |d.skeys| + KeyCount(io.skeys)
            && |d'.okeys| == |d.okeys| + KeyCount(io.okeys)
    ensures |d'.folders| == |d.folders| + (if io.folder == "" then 0 else 1) && Extends(d.folders, d'.folders)
  {
    hide *;
    MoreKeys(d.tkeys, c.account, io.tkeys);
    MoreKeys(d.skeys, c.account, io.skeys);
    MoreKeys(d.okeys, c.account, io.okeys);
    ImportedParts(d, io, d', c, r);
    OneMoreFolder(d, io, d', c);
    ImportedAccountParts(d, io, d', c);
    HistoryParts(d, io, d', c, r);
    BeforeParts(d);
    MoreTxs(c, Before(d), io.txs);
    LongerParts(Before(d), r, |io.txs|, NoteCount(io.txs), OutputCount(io.txs), MemoCount(io.txs));
    MoreAllSpends(c, r.newTxs, r.newNotes, d.spends, io.txs);
    MoreBlocks(c, r.newNotes, d.witnesses, io.blocks);
    MoreTaddrs(c.account, d.taddrs, io.taddrs);
    MoreSyncHeights(c.account, d.syncHeights, io.syncHeights);
  }

  lemma LongerParts(r: Rows, r': Rows, txs: nat, notes: nat, outputs: nat, memos: nat)
    requires Longer(r, r', txs, notes, outputs, memos)
    ensures |r'.txs| == |r.txs| + txs && |r'.notes| == |r.notes| + notes && |r'.outputs| == |r.outputs| + outputs
    ensures |r'.memos| == |r.memos| + memos
  {
  }

  // ---------------------------------------------------------------------
  // UNIQUE constraints hold afterwards, whatever the record
  // ---------------------------------------------------------------------

  ghost predicate RowsUnique(r: Rows) {
    Unique(r.txs, TxKey) && Unique(r.notes, NoteKey) && Unique(r.outputs, OutputKey) && Unique(r.memos, MemoKey)
  }

  lemma UniqueAppend<T(!new), K>(t: Table<T>, key: T -> K, row: T)
    requires Unique(t, key) && !Taken(t, key, row)
    ensures Unique(Append(t, [row]), key)
  {
    AppendOne(t, row);
    hide Append;
  }

  lemma UniqueMemo(r: Rows, m: Memo)
    requires RowsUnique(r) && AddMemo(r, m).Some?
    ensures RowsUnique(AddMemo(r, m).value)
  {
    hide Unique, Append;
    UniqueAppend(r.memos, MemoKey, m);
  }

  lemma UniqueNote(c: Ctx, newTx: nat, r: Rows, n: IONote)
    requires RowsUnique(r) && AddNote(c, newTx, r, n).Some?
    ensures RowsUnique(AddNote(c, newTx, r, n).value)
  {
    hide Unique, Append, NextId, AddMemo, NoteRow, NoteMemo, Taken;
    var row, id := NoteRow(c, newTx, n), NextId(r.notes);
    UniqueAppend(r.notes, NoteKey, row);
    var r' := r.(notes := Append(r.notes, [row]), newNotes := r.newNotes[n.id := id]);
    if n.vout.Some? {
      UniqueMemo(r', NoteMemo(c, newTx, id, n));
    }
  }

  lemma UniqueOutput(c: Ctx, newTx: nat, r: Rows, o: IOOutput)
    requires RowsUnique(r) && AddOutput(c, newTx, r, o).Some?
    ensures RowsUnique(AddOutput(c, newTx, r, o).value)
  {
    hide Unique, Append, NextId, AddMemo, OutputRow, OutputMemo, Taken;
    var row := OutputRow(c, newTx, o);
    UniqueAppend(r.outputs, OutputKey, row);
    if o.memoBytes.Some? {
      UniqueMemo(r.(outputs := Append(r.outputs, [row])), OutputMemo(c, newTx, NextId(r.outputs), o));
    }
  }

  lemma {:induction false} UniqueNotes(c: Ctx, newTx: nat, r: Rows, ns: seq<IONote>)
    requires RowsUnique(r) && AddNotes(c, newTx, r, ns).Some?
    ensures RowsUnique(AddNotes(c, newTx, r, ns).value)
  {
    hide AddNote, RowsUnique;
    if ns != [] {
      UniqueNotes(c, newTx, r, ns[..|ns| - 1]);
      UniqueNote(c, newTx, AddNotes(c, newTx, r, ns[..|ns| - 1]).value, ns[|ns| - 1]);
    }
  }

  lemma {:induction false} UniqueOutputs(c: Ctx, newTx: nat, r: Rows, os: seq<IOOutput>)
    requires RowsUnique(r) && AddOutputs(c, newTx, r, os).Some?
    ensures RowsUnique(AddOutputs(c, newTx, r, os).value)
  {
    hide AddOutput, RowsUnique;
    if os != [] {
      UniqueOutputs(c, newTx, r, os[..|os| - 1]);
      UniqueOutput(c, newTx, AddOutputs(c, newTx, r, os[..|os| - 1]).value, os[|os| - 1]);
    }
  }

  lemma UniqueTx(c: Ctx, r: Rows, io: IOTx)
    requires RowsUnique(r) && AddTx(c, r, io).Some?
    ensures RowsUnique(AddTx(c, r, io).value)
  {
    hide Unique, Append, AddNotes, AddOutputs, NextId, TxRow, Taken;
    UniqueAppend(r.txs, TxKey, TxRow(c, io));
    var r1 := AddTxRow(c, r, io).value;
    assert RowsUnique(r1);
    hide RowsUnique;
    UniqueNotes(c, NextId(r.txs), r1, io.notes);
    UniqueOutputs(c, NextId(r.txs), AddNotes(c, NextId(r.txs), r1, io.notes).value, io.outputs);
  }

  lemma {:induction false} UniqueTxs(c: Ctx, r: Rows, ios: seq<IOTx>)
    requires RowsUnique(r) && AddTxs(c, r, ios).Some?
    ensures RowsUnique(AddTxs(c, r, ios).value)
  {
    hide AddTx, RowsUnique;
    if ios != [] {
      UniqueTxs(c, r, ios[..|ios| - 1]);
      UniqueTx(c, AddTxs(c, r, ios[..|ios| - 1]).value, ios[|ios| - 1]);
    }
  }

  lemma {:induction false} UniqueWitnesses(c: Ctx, newNotes: map<nat, nat>, t: Table<Witness>, ws: seq<IOWitness>)
    requires Unique(t, WitnessKey) && AddWitnesses(c, newNotes, t, ws).Some?
    ensures Unique(AddWitnesses(c, newNotes, t, ws).value, WitnessKey)
  {
    hide Unique, Append, Taken;
    if ws != [] {
      var front, w := ws[..|ws| - 1], ws[|ws| - 1];
      UniqueWitnesses(c, newNotes, t, front);
      UniqueAppend(AddWitnesses(c, newNotes, t, front).value, WitnessKey,
          Witness(c.account, newNotes[w.note], w.height, w.data));
    }
  }

  lemma {:induction false} UniqueBlocks(c: Ctx, newNotes: map<nat, nat>, t: Table<Witness>, bs: seq<IOBlock>)
    requires Unique(t, WitnessKey) && AddBlocks(c, newNotes, t, bs).Some?
    ensures Unique(AddBlocks(c, newNotes, t, bs).value, WitnessKey)
  {
    hide Unique, AddWitnesses;
    if bs != [] {
      UniqueBlocks(c, newNotes, t, bs[..|bs| - 1]);
      UniqueWitnesses(c, newNotes, AddBlocks(c, newNotes, t, bs[..|bs| - 1]).value, bs[|bs| - 1].witnesses);
    }
  }

  lemma {:induction false} UniqueTaddrs(account: nat, t: Table<Taddr>, ios: seq<IOTaddr>)
    requires Unique(t, TaddrKey) && AddTaddrs(account, t, ios).Some?
    ensures Unique(AddTaddrs(account, t, ios).value, TaddrKey)
  {
    hide Unique, Append, Taken, TaddrRow;
    if ios != [] {
      UniqueTaddrs(account, t, ios[..|ios| - 1]);
      UniqueAppend(AddTaddrs(account, t, ios[..|ios| - 1]).value, TaddrKey, TaddrRow(account, ios[|ios| - 1]));
    }
  }

  lemma UniqueBefore(d: Db)
    requires Constraints(d)
    ensures RowsUnique(Before(d)) && Unique(d.taddrs, TaddrKey) && Unique(d.witnesses, WitnessKey)
  {
    hide Unique;
  }

  lemma ConstraintsAre(d: Db, io: IOAccount, d': Db, c: Ctx, r: Rows)
    requires ImportedShared(d, io, d', c) && RowsUnique(r)
    requires d'.txs == r.txs && d'.notes == r.notes && d'.outputs == r.outputs && d'.memos == r.memos
    requires Unique(d'.taddrs, TaddrKey) && Unique(d'.witnesses, WitnessKey)
    ensures Constraints(d')
  {
    hide Unique, CategoriesMerged, AssetsMerged, AssetsFit;
  }

  /** No import, of any record into any database, leaves two rows with the same unique key. */
  lemma ImportKeepsConstraints(d: Db, io: IOAccount, d': Db, c: Ctx, r: Rows)
    requires Constraints(d) && Imported(d, io, d', c, r)
    ensures Constraints(d')
  {
    hide *;
    ImportedParts(d, io, d', c, r);
    ImportedAccountParts(d, io, d', c);
    HistoryParts(d, io, d', c, r);
    UniqueBefore(d);
    UniqueTxs(c, Before(d), io.txs);
    UniqueBlocks(c, r.newNotes, d.witnesses, io.blocks);
    UniqueTaddrs(c.account, d.taddrs, io.taddrs);
    ConstraintsAre(d, io, d', c, r);
  }

  // ---------------------------------------------------------------------
  // Nor does any record leave a dangling reference
  // ---------------------------------------------------------------------

  /** The ids references of an account's history can point to outside it. */
  datatype Targets = Targets(categories: set<nat>, assets: set<nat>, taddrs: set<nat>)

  predicate Hits(id: Option<nat>, targets: set<nat>) { id.Some? ==> id.value in targets }

  ghost predicate MemoRefers(r: Rows, m: Memo) {
    m.tx in r.txs && Hits(m.note, r.notes.Keys) && Hits(m.output, r.outputs.Keys)
  }

  ghost predicate NoteRefers(r: Rows, n: Note, to: Targets) {
    n.tx in r.txs && Hits(n.taddress, to.taddrs) && Hits(n.asset, to.assets)
  }

  /** Every reference of these rows is to a row that exists. */
  ghost predicate RowsRefer(r: Rows, to: Targets) {
    && (forall k | k in r.txs :: Hits(r.txs[k].category, to.categories))
    && (forall k | k in r.notes :: NoteRefers(r, r.notes[k], to))
    && (forall k | k in r.outputs :: r.outputs[k].tx in r.txs)
    && (forall k | k in r.memos :: MemoRefers(r, r.memos[k]))
  }

  /** The id maps lead to rows that exist. */
  ghost predicate MapsLead(r: Rows) {
    && (forall k | k in r.newTxs :: r.newTxs[k] in r.txs)
    && (forall k | k in r.newNotes :: r.newNotes[k] in r.notes)
  }

  ghost predicate CtxLeads(c: Ctx, to: Targets) {
    && (forall k | k in c.categories :: c.categories[k] in to.categories)
    && (forall k | k in c.assets :: c.assets[k] in to.assets)
    && (forall k | k in c.taddrs :: c.taddrs[k] in to.taddrs)
  }

  lemma MemoStands(r: Rows, m: Memo, to: Targets)
    requires RowsRefer(r, to) && MapsLead(r) && MemoRefers(r, m) && AddMemo(r, m).Some?
    ensures RowsRefer(AddMemo(r, m).value, to) && MapsLead(AddMemo(r, m).value)
    ensures AddMemo(r, m).value.txs == r.txs
  {
    AppendOne(r.memos, m);
    hide Append, NextId, Hits, Taken;
  }

  lemma NoteStands(c: Ctx, newTx: nat, r: Rows, n: IONote, to: Targets)
    requires RowsRefer(r, to) && MapsLead(r) && CtxLeads(c, to) && newTx in r.txs && AddNote(c, newTx, r, n).Some?
    ensures RowsRefer(AddNote(c, newTx, r, n).value, to) && MapsLead(AddNote(c, newTx, r, n).value)
    ensures AddNote(c, newTx, r, n).value.txs == r.txs
  {
    var row, id := NoteRow(c, newTx, n), NextId(r.notes);
    var r' := r.(notes := Append(r.notes, [row]), newNotes := r.newNotes[n.id := id]);
    NoteRowRefers(c, newTx, r, n, to);
    hide Append, NextId, Taken, NoteRow, CtxLeads, AddMemo;
    OneNoteStands(r, row, n.id, to);
    if n.vout.Some? {
      AppendOne(r.notes, row);
      MemoStands(r', NoteMemo(c, newTx, id, n), to);
    }
  }

  lemma NoteRowRefers(c: Ctx, newTx: nat, r: Rows, n: IONote, to: Targets)
    requires CtxLeads(c, to) && newTx in r.txs
    ensures NoteRefers(r, NoteRow(c, newTx, n), to)
  {
  }

  lemma OneNoteStands(r: Rows, row: Note, old_: nat, to: Targets)
    requires RowsRefer(r, to) && MapsLead(r) && NoteRefers(r, row, to)
    ensures var r' := r.(notes := Append(r.notes, [row]), newNotes := r.newNotes[old_ := NextId(r.notes)]);
            RowsRefer(r', to) && MapsLead(r')
  {
    AppendOne(r.notes, row);
    hide Append, NextId;
  }

  lemma OutputStands(c: Ctx, newTx: nat, r: Rows, o: IOOutput, to: Targets)
    requires RowsRefer(r, to) && MapsLead(r) && newTx in r.txs && AddOutput(c, newTx, r, o).Some?
    ensures RowsRefer(AddOutput(c, newTx, r, o).value, to) && MapsLead(AddOutput(c, newTx, r, o).value)
    ensures AddOutput(c, newTx, r, o).value.txs == r.txs
  {
    var row := OutputRow(c, newTx, o);
    var r' := r.(outputs := Append(r.outputs, [row]));
    hide Append, NextId, Taken, AddMemo;
    OneOutputStands(r, row, to);
    if o.memoBytes.Some? {
      AppendOne(r.outputs, row);
      MemoStands(r', OutputMemo(c, newTx, NextId(r.outputs), o), to);
    }
  }

  lemma OneOutputStands(r: Rows, row: Output, to: Targets)
    requires RowsRefer(r, to) && MapsLead(r) && row.tx in r.txs
    ensures var r' := r.(outputs := Append(r.outputs, [row])); RowsRefer(r', to) && MapsLead(r')
  {
    AppendOne(r.outputs, row);
    hide Append, NextId;
  }

  lemma {:induction false} NotesStand(c: Ctx, newTx: nat, r: Rows, ns: seq<IONote>, to: Targets)
    requires RowsRefer(r, to) && MapsLead(r) && CtxLeads(c, to) && newTx in r.txs && AddNotes(c, newTx, r, ns).Some?
    ensures RowsRefer(AddNotes(c, newTx, r, ns).value, to) && MapsLead(AddNotes(c, newTx, r, ns).value)
    ensures AddNotes(c, newTx, r, ns).value.txs == r.txs
  {
    hide AddNote, RowsRefer, MapsLead, CtxLeads;
    if ns != [] {
      NotesStand(c, newTx, r, ns[..|ns| - 1], to);
      NoteStands(c, newTx, AddNotes(c, newTx, r, ns[..|ns| - 1]).value, ns[|ns| - 1], to);
    }
  }

  lemma {:induction false} OutputsStand(c: Ctx, newTx: nat, r: Rows, os: seq<IOOutput>, to: Targets)
    requires RowsRefer(r, to) && MapsLead(r) && newTx in r.txs && AddOutputs(c, newTx, r, os).Some?
    ensures RowsRefer(AddOutputs(c, newTx, r, os).value, to) && MapsLead(AddOutputs(c, newTx, r, os).value)
    ensures AddOutputs(c, newTx, r, os).value.txs == r.txs
  {
    hide AddOutput, RowsRefer, MapsLead;
    if os != [] {
      OutputsStand(c, newTx, r, os[..|os| - 1], to);
      OutputStands(c, newTx, AddOutputs(c, newTx, r, os[..|os| - 1]).value, os[|os| - 1], to);
    }
  }

  lemma TxRowStands(c: Ctx, r: Rows, io: IOTx, to: Targets)
    requires RowsRefer(r, to) && MapsLead(r) && CtxLeads(c, to) && AddTxRow(c, r, io).Some?
    ensures RowsRefer(AddTxRow(c, r, io).value, to) && MapsLead(AddTxRow(c, r, io).value)
    ensures NextId(r.txs) in AddTxRow(c, r, io).value.txs
  {
    AppendOne(r.txs, TxRow(c, io));
    hide Append, NextId, Taken;
  }

  lemma TxStands(c: Ctx, r: Rows, io: IOTx, to: Targets)
    requires RowsRefer(r, to) && MapsLead(r) && CtxLeads(c, to) && AddTx(c, r, io).Some?
    ensures RowsRefer(AddTx(c, r, io).value, to) && MapsLead(AddTx(c, r, io).value)
  {
    hide AddTxRow, AddNotes, AddOutputs, RowsRefer, MapsLead, CtxLeads, NextId;
    var newTx, r1 := NextId(r.txs), AddTxRow(c, r, io).value;
    TxRowStands(c, r, io, to);
    NotesStand(c, newTx, r1, io.notes, to);
    OutputsStand(c, newTx, AddNotes(c, newTx, r1, io.notes).value, io.outputs, to);
  }

  lemma {:induction false} TxsStand(c: Ctx, r: Rows, ios: seq<IOTx>, to: Targets)
    requires RowsRefer(r, to) && MapsLead(r) && CtxLeads(c, to) && AddTxs(c, r, ios).Some?
    ensures RowsRefer(AddTxs(c, r, ios).value, to) && MapsLead(AddTxs(c, r, ios).value)
  {
    hide AddTx, RowsRefer, MapsLead, CtxLeads;
    if ios != [] {
      TxsStand(c, r, ios[..|ios| - 1], to);
      TxStands(c, AddTxs(c, r, ios[..|ios| - 1]).value, ios[|ios| - 1], to);
    }
  }

  ghost predicate SpendsRefer(t: Table<Spend>, notes: set<nat>, txs: set<nat>) {
    forall k | k in t :: k in notes && t[k].tx in txs
  }

  ghost predicate WitnessesRefer(t: Table<Witness>, notes: set<nat>) {
    forall k | k in t :: t[k].note in notes
  }

  lemma {:induction false} SpendsStand(c: Ctx, newTx: nat, newNotes: map<nat, nat>, t: Table<Spend>,
          ss: seq<IOSpend>, notes: set<nat>, txs: set<nat>)
    requires SpendsRefer(t, notes, txs) && newTx in txs && newNotes.Values <= notes
    requires AddSpends(c, newTx, newNotes, t, ss).Some?
    ensures SpendsRefer(AddSpends(c, newTx, newNotes, t, ss).value, notes, txs)
  {
    if ss != [] {
      SpendsStand(c, newTx, newNotes, t, ss[..|ss| - 1], notes, txs);
      assert newNotes[ss[|ss| - 1].idNote] in newNotes.Values;
    }
  }

  lemma {:induction false} AllSpendsStand(c: Ctx, newTxs: map<nat, nat>, newNotes: map<nat, nat>,
          t: Table<Spend>, ios: seq<IOTx>, notes: set<nat>, txs: set<nat>)
    requires SpendsRefer(t, notes, txs) && newTxs.Values <= txs && newNotes.Values <= notes
    requires AddAllSpends(c, newTxs, newNotes, t, ios).Some?
    ensures SpendsRefer(AddAllSpends(c, newTxs, newNotes, t, ios).value, notes, txs)
  {
    hide AddSpends, SpendsRefer;
    if ios != [] {
      var front, io := ios[..|ios| - 1], ios[|ios| - 1];
      AllSpendsStand(c, newTxs, newNotes, t, front, notes, txs);
      assert newTxs[io.id] in newTxs.Values;
      SpendsStand(c, newTxs[io.id], newNotes, AddAllSpends(c, newTxs, newNotes, t, front).value, io.spends, notes, txs);
    }
  }

  lemma {:induction false} WitnessesStand(c: Ctx, newNotes: map<nat, nat>, t: Table<Witness>, ws: seq<IOWitness>,
          notes: set<nat>)
    requires WitnessesRefer(t, notes) && newNotes.Values <= notes && AddWitnesses(c, newNotes, t, ws).Some?
    ensures WitnessesRefer(AddWitnesses(c, newNotes, t, ws).value, notes)
  {
    hide Append, Taken, NextId;
    if ws != [] {
      var front, w := ws[..|ws| - 1], ws[|ws| - 1];
      WitnessesStand(c, newNotes, t, front, notes);
      assert newNotes[w.note] in newNotes.Values;
      AppendOne(AddWitnesses(c, newNotes, t, front).value, Witness(c.account, newNotes[w.note], w.height, w.data));
    }
  }

  lemma {:induction false} BlocksStand(c: Ctx, newNotes: map<nat, nat>, t: Table<Witness>, bs: seq<IOBlock>,
          notes: set<nat>)
    requires WitnessesRefer(t, notes) && newNotes.Values <= notes && AddBlocks(c, newNotes, t, bs).Some?
    ensures WitnessesRefer(AddBlocks(c, newNotes, t, bs).value, notes)
  {
    hide AddWitnesses, WitnessesRefer;
    if bs != [] {
      var front, b := bs[..|bs| - 1], bs[|bs| - 1];
      BlocksStand(c, newNotes, t, front, notes);
      WitnessesStand(c, newNotes, AddBlocks(c, newNotes, t, front).value, b.witnesses, notes);
    }
  }

  lemma {:induction false} TaddrsAppended(account: nat, t: Table<Taddr>, ios: seq<IOTaddr>)
    requires AddTaddrs(account, t, ios).Some?
    ensures AddTaddrs(account, t, ios).value == Append(t, TaddrRows(account, ios))
  {
    hide Append, Taken, TaddrRow;
    if ios == [] {
      AppendNothing(t);
    } else {
      var front, io := ios[..|ios| - 1], ios[|ios| - 1];
      TaddrsAppended(account, t, front);
      AppendAppend(t, TaddrRows(account, front), [TaddrRow(account, io)]);
      assert TaddrRows(account, ios) == TaddrRows(account, front) + [TaddrRow(account, io)];
    }
  }

  lemma {:induction false} IdMapInRange(ids: seq<nat>, first: nat)
    ensures forall k | k in IdMap(ids, first) :: first <= IdMap(ids, first)[k] < first + |ids|
  {
    if ids != [] {
      IdMapInRange(ids[..|ids| - 1], first);
    }
  }

  lemma TaddrsLead(account: nat, t: Table<Taddr>, ios: seq<IOTaddr>)
    requires AddTaddrs(account, t, ios).Some?
    ensures var m := IdMap(TaddrIds(ios), NextId(t));
            forall k | k in m :: m[k] in AddTaddrs(account, t, ios).value
    ensures t.Keys <= AddTaddrs(account, t, ios).value.Keys
  {
    TaddrsAppended(account, t, ios);
    IdMapInRange(TaddrIds(ios), NextId(t));
  }

  function TargetsOf(d: Db): Targets { Targets(d.categories.Keys, d.assets.Keys, d.taddrs.Keys) }

  /** Every reference between history rows, and to categories, assets and addresses, is to a row that exists. */
  ghost predicate Refers(d: Db) {
    && RowsRefer(Before(d), TargetsOf(d)) && SpendsRefer(d.spends, d.notes.Keys, d.txs.Keys)
    && WitnessesRefer(d.witnesses, d.notes.Keys)
  }

  lemma StartRefers(d: Db, to: Targets)
    requires RowsRefer(Before(d), TargetsOf(d))
    requires d.categories.Keys <= to.categories && d.assets.Keys <= to.assets && d.taddrs.Keys <= to.taddrs
    ensures RowsRefer(Before(d), to) && MapsLead(Before(d))
  {
    forall k | k in d.notes
      ensures NoteRefers(Before(d), d.notes[k], to)
    {
      assert NoteRefers(Before(d), d.notes[k], TargetsOf(d));
    }
  }

  lemma RowsStay(c: Ctx, r: Rows, ios: seq<IOTx>)
    requires AddTxs(c, r, ios).Some?
    ensures r.txs.Keys <= AddTxs(c, r, ios).value.txs.Keys && r.notes.Keys <= AddTxs(c, r, ios).value.notes.Keys
    decreases |ios|
  {
    hide AddTx;
    if ios != [] {
      RowsStay(c, r, ios[..|ios| - 1]);
      TxRowsStay(c, AddTxs(c, r, ios[..|ios| - 1]).value, ios[|ios| - 1]);
    }
  }

  lemma TxRowsStay(c: Ctx, r: Rows, io: IOTx)
    requires AddTx(c, r, io).Some?
    ensures r.txs.Keys <= AddTx(c, r, io).value.txs.Keys && r.notes.Keys <= AddTx(c, r, io).value.notes.Keys
  {
    hide AddNotes, AddOutputs, NextId, TxRow, Taken;
    var newTx, r1 := NextId(r.txs), AddTxRow(c, r, io).value;
    NoteRowsStay(c, newTx, r1, io.notes);
    OutputRowsStay(c, newTx, AddNotes(c, newTx, r1, io.notes).value, io.outputs);
  }

  lemma {:induction false} NoteRowsStay(c: Ctx, newTx: nat, r: Rows, ns: seq<IONote>)
    requires AddNotes(c, newTx, r, ns).Some?
    ensures var r' := AddNotes(c, newTx, r, ns).value; r'.txs == r.txs && r.notes.Keys <= r'.notes.Keys
  {
    if ns != [] {
      NoteRowsStay(c, newTx, r, ns[..|ns| - 1]);
    }
  }

  lemma {:induction false} OutputRowsStay(c: Ctx, newTx: nat, r: Rows, os: seq<IOOutput>)
    requires AddOutputs(c, newTx, r, os).Some?
    ensures var r' := AddOutputs(c, newTx, r, os).value; r'.txs == r.txs && r'.notes == r.notes
  {
    if os != [] {
      OutputRowsStay(c, newTx, r, os[..|os| - 1]);
    }
  }

  lemma SharedLead(d: Db, io: IOAccount, d': Db, c: Ctx)
    requires ImportedShared(d, io, d', c)
    ensures (forall k | k in c.categories :: c.categories[k] in d'.categories)
            && (forall k | k in c.assets :: c.assets[k] in d'.assets)
    ensures d.categories.Keys <= d'.categories.Keys && d.assets.Keys <= d'.assets.Keys
  {
    hide NewCategories, NewFrom, AssetsFit;
  }

  lemma RefersIs(d': Db, r: Rows, to: Targets)
    requires RowsRefer(r, to) && to == TargetsOf(d')
    requires d'.txs == r.txs && d'.notes == r.notes && d'.outputs == r.outputs && d'.memos == r.memos
    requires SpendsRefer(d'.spends, d'.notes.Keys, d'.txs.Keys) && WitnessesRefer(d'.witnesses, d'.notes.Keys)
    ensures Refers(d')
  {
    forall k | k in d'.notes
      ensures NoteRefers(Before(d'), d'.notes[k], to)
    {
      assert NoteRefers(r, r.notes[k], to);
    }
    forall k | k in d'.memos
      ensures MemoRefers(Before(d'), d'.memos[k])
    {
      assert MemoRefers(r, r.memos[k]);
    }
  }

  lemma CtxLeadsIs(c: Ctx, to: Targets)
    requires (forall k | k in c.categories :: c.categories[k] in to.categories)
    requires (forall k | k in c.assets :: c.assets[k] in to.assets)
    requires (forall k | k in c.taddrs :: c.taddrs[k] in to.taddrs)
    ensures CtxLeads(c, to)
  {
  }

  lemma MapValues(r: Rows)
    requires MapsLead(r)
    ensures r.newTxs.Values <= r.txs.Keys && r.newNotes.Values <= r.notes.Keys
  {
  }

  lemma RefersStay(d: Db, notes: set<nat>, txs: set<nat>)
    requires Refers(d) && d.notes.Keys <= notes && d.txs.Keys <= txs
    ensures SpendsRefer(d.spends, notes, txs) && WitnessesRefer(d.witnesses, notes)
            && RowsRefer(Before(d), TargetsOf(d))
  {
  }

  /**
   Whatever the record: what an import adds to a database without dangling references has none. A
   category, asset or address the record does not list is dropped from the row that names it.
   */
  lemma ImportLeavesNothingDangling(d: Db, io: IOAccount, d': Db, c: Ctx, r: Rows)
    requires Refers(d) && Imported(d, io, d', c, r)
    ensures Refers(d')
  {
    hide *;
    var to := TargetsOf(d');
    ImportedParts(d, io, d', c, r);
    ImportedAccountParts(d, io, d', c);
    HistoryParts(d, io, d', c, r);
    SharedLead(d, io, d', c);
    TaddrsLead(c.account, d.taddrs, io.taddrs);
    assert to == Targets(d'.categories.Keys, d'.assets.Keys, d'.taddrs.Keys) by { TargetsAre(d'); }
    CtxLeadsIs(c, to);
    RowsStay(c, Before(d), io.txs);
    BeforeParts(d);
    RefersStay(d, r.notes.Keys, r.txs.Keys);
    StartRefers(d, to);
    TxsStand(c, Before(d), io.txs, to);
    MapValues(r);
    AllSpendsStand(c, r.newTxs, r.newNotes, d.spends, io.txs, r.notes.Keys, r.txs.Keys);
    BlocksStand(c, r.newNotes, d.witnesses, io.blocks, r.notes.Keys);
    RefersIs(d', r, to);
  }

  lemma TargetsAre(d: Db)
    ensures TargetsOf(d) == Targets(d.categories.Keys, d.assets.Keys, d.taddrs.Keys)
  {
  }

  // ---------------------------------------------------------------------
  // Records of older versions
  // ---------------------------------------------------------------------

  /** The record as a program of version `v` wrote it; before 10 it had no signing flag, which reads as false. */
  function WrittenBy(v: nat, io: IOAccount): IOAccount {
    io.(version := v, cols := if v < 10 then io.cols.(canSign := false) else io.cols)
  }

  /**
   A record of version 10 gives back the account row. An older one does if and only if the account
   can sign exactly when it has a seed fingerprint; a watch-only account with a fingerprint comes
   back able to sign, and a signing account without one does not.
   */
  lemma OldRecordRestoresIff(src: Db, account: nat, io: IOAccount, v: nat, dst: Db, d': Db, c: Ctx, r: Rows)
    requires Exported(src, account, io) && Imported(dst, WrittenBy(v, io), d', c, r)
    ensures c.account in d'.accounts && v <= 10
    ensures var was, now := src.accounts[account].cols, d'.accounts[c.account].cols;
            now == was <==> v == 10 || (was.canSign <==> was.seedFingerprint.Some?)
  {
    hide ImportedHistory, SharedExported, TaddrsExported, SyncHeightsExported, TxsExported, UserMemosExported,
         BlocksExported, CategoriesMerged, AssetsMerged, AssetsFit, NextId, FolderChosen;
    var was, old_ := src.accounts[account].cols, WrittenBy(v, io);
    assert d'.accounts[c.account].cols == RestoredCols(old_);
    assert was.(canSign := false).(canSign := was.canSign) == was;
  }
}
