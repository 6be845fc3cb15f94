/**
 How each row of a restored account comes from a row of the original: the ids
 are mapped, the other restored columns are the same.
 */
module BackupRelocation {
  import opened Wrappers
  import opened Tables
  import opened Schema
  import opened Backup
  import opened BackupExport
  import opened BackupFold
  import opened BackupRecord

  /** The id maps of an import. */
  datatype Relocation = Relocation(c: Ctx, txs: map<nat, nat>, notes: map<nat, nat>, outputs: map<nat, nat>)

  function Moved(m: map<nat, nat>, id: nat): nat { if id in m then m[id] else 0 }

  function RestoredTaddr(m: Relocation): Taddr -> Taddr { (r: Taddr) => Taddr(m.c.account, r.cols, false) }

  function RestoredTx(m: Relocation): Tx -> Tx { (r: Tx) => Tx(m.c.account, r.cols, Remap(m.c.categories, r.category)) }

  function RestoredNote(m: Relocation): Note -> Note {
    (r: Note) => Note(m.c.account, Moved(m.txs, r.tx), r.cols, Remap(m.c.taddrs, r.taddress),
        Remap(m.c.assets, r.asset))
  }

  function RestoredOutput(m: Relocation): Output -> Output { (r: Output) => Output(m.c.account, Moved(m.txs, r.tx),
          r.cols) }

  function RestoredMemo(m: Relocation): Memo -> Memo {
    (r: Memo) => Memo(m.c.account, Moved(m.txs, r.tx), r.height, r.pool, r.vout, Remap(m.notes, r.note),
        Remap(m.outputs, r.output), r.text, r.bytes)
  }

  function RestoredWitness(m: Relocation): Witness -> Witness {
    (r: Witness) => Witness(m.c.account, Moved(m.notes, r.note), r.height, r.data)
  }

  function RestoredSpend(m: Relocation): Spend -> Spend {
    (r: Spend) => Spend(m.c.account, Moved(m.txs, r.tx), r.height, r.pool, r.value)
  }

  /** `rows` are the rows `ids` of `s` after `tr`. */
  ghost predicate RowsAre<T(!new)>(s: Table<T>, ids: seq<nat>, rows: seq<T>, tr: T -> T) {
    |ids| == |rows| && forall i | 0 <= i < |ids| :: ids[i] in s && rows[i] == tr(s[ids[i]])
  }

  lemma RowsJoin<T(!new)>(s: Table<T>, a: seq<nat>, rows: seq<T>, b: seq<nat>, more: seq<T>, tr: T -> T)
    requires RowsAre(s, a, rows, tr) && RowsAre(s, b, more, tr)
    ensures RowsAre(s, a + b, rows + more, tr)
  {
  }

  lemma RowsNothing<T(!new)>(s: Table<T>, tr: T -> T)
    ensures RowsAre(s, [], [], tr)
  {
  }

  lemma RowsCopied<T(!new)>(s: Table<T>, p: T -> bool, d: Table<T>, tr: T -> T, ids: seq<nat>, rows: seq<T>)
    requires Lists(ids, s, p) && RowsAre(s, ids, rows, tr)
    ensures Copied(s, p, d, Append(d, rows), tr, IdMap(ids, NextId(d)))
  {
    hide Append, NextId, IdMap, Lists, Copied;
    AppendCopies(s, p, d, tr, ids, rows);
  }

  // ---------------------------------------------------------------------
  // Notes and outputs
  // ---------------------------------------------------------------------

  /** The map agrees with ids handed out in order from `first` on. */
  ghost predicate InOrder(m: map<nat, nat>, ids: seq<nat>, first: nat) {
    forall i | 0 <= i < |ids| :: ids[i] in m && m[ids[i]] == first + i
  }

  lemma InOrderParts(m: map<nat, nat>, a: seq<nat>, b: seq<nat>, first: nat)
    requires InOrder(m, a + b, first)
    ensures InOrder(m, a, first) && InOrder(m, b, first + |a|)
  {
    assert forall i | 0 <= i < |a| :: (a + b)[i] == a[i];
    assert forall i | 0 <= i < |b| :: (a + b)[|a| + i] == b[i];
  }

  lemma IdMapInOrder(ids: seq<nat>, first: nat)
    requires NoDup(ids)
    ensures InOrder(IdMap(ids, first), ids, first)
    ensures forall k :: k in IdMap(ids, first) <==> k in ids
  {
    IdMapAt(ids, first);
  }

  lemma NoteRowsAre(db: Db, m: Relocation, tx: nat, newTx: nat, ns: seq<IONote>)
    requires NotesExported(db, tx, ns) && Moved(m.txs, tx) == newTx
    requires forall k | k in db.notes :: IsI64(db.notes[k].cols.value)
    ensures RowsAre(db.notes, NoteIds(ns), NoteRowsOf(m.c, newTx, ns), RestoredNote(m))
  {
    forall i | 0 <= i < |ns|
      ensures NoteRow(m.c, newTx, ns[i]) == RestoredNote(m)(db.notes[ns[i].id])
    {
      NotesInTx(db, tx, ns, i);
      CastRoundTrip(db.notes[ns[i].id].cols.value);
    }
  }

  lemma OutputRowsAre(db: Db, m: Relocation, tx: nat, newTx: nat, os: seq<IOOutput>)
    requires OutputsExported(db, tx, os) && Moved(m.txs, tx) == newTx
    requires forall k | k in db.outputs :: IsI64(db.outputs[k].cols.value)
    ensures RowsAre(db.outputs, OutputIds(os), OutputRowsOf(m.c, newTx, os), RestoredOutput(m))
  {
    forall i | 0 <= i < |os|
      ensures OutputRow(m.c, newTx, os[i]) == RestoredOutput(m)(db.outputs[os[i].id])
    {
      OutputsInTx(db, tx, os, i);
      CastRoundTrip(db.outputs[os[i].id].cols.value);
    }
  }

  lemma TxIdsFront(m: map<nat, nat>, ios: seq<IOTx>, first: nat)
    requires ios != [] && InOrder(m, TxIds(ios), first)
    ensures InOrder(m, TxIds(ios[..|ios| - 1]), first)
    ensures Moved(m, ios[|ios| - 1].id) == first + |ios| - 1
  {
    var front := ios[..|ios| - 1];
    assert TxIds(ios) == TxIds(front) + [ios[|ios| - 1].id];
    InOrderParts(m, TxIds(front), [ios[|ios| - 1].id], first);
    assert TxIds(ios)[|front|] == ios[|ios| - 1].id;
  }

  lemma {:induction false} AllNoteRowsAre(db: Db, m: Relocation, firstTx: nat, ios: seq<IOTx>)
    requires TxPartsExported(db, ios) && InOrder(m.txs, TxIds(ios), firstTx)
    requires forall k | k in db.notes :: IsI64(db.notes[k].cols.value)
    ensures RowsAre(db.notes, NoteIds(FlatNotes(ios)), NoteRows(m.c, firstTx, ios), RestoredNote(m))
  {
    hide NotesExported, OutputsExported, SpendsExported, InOrder, RowsAre, NoteRowsOf;
    if ios == [] {
      RowsNothing(db.notes, RestoredNote(m));
      assert NoteIds(FlatNotes(ios)) == [];
    } else {
      var front, io := ios[..|ios| - 1], ios[|ios| - 1];
      PartsFront(db, ios);
      TxIdsFront(m.txs, ios, firstTx);
      AllNoteRowsAre(db, m, firstTx, front);
      NoteRowsAre(db, m, io.id, firstTx + |ios| - 1, io.notes);
      assert NoteIds(FlatNotes(ios)) == NoteIds(FlatNotes(front)) + NoteIds(io.notes);
      RowsJoin(db.notes, NoteIds(FlatNotes(front)), NoteRows(m.c, firstTx, front),
               NoteIds(io.notes), NoteRowsOf(m.c, firstTx + |ios| - 1, io.notes), RestoredNote(m));
    }
  }

  lemma {:induction false} AllOutputRowsAre(db: Db, m: Relocation, firstTx: nat, ios: seq<IOTx>)
    requires TxPartsExported(db, ios) && InOrder(m.txs, TxIds(ios), firstTx)
    requires forall k | k in db.outputs :: IsI64(db.outputs[k].cols.value)
    ensures RowsAre(db.outputs, OutputIds(FlatOutputs(ios)), OutputRows(m.c, firstTx, ios), RestoredOutput(m))
  {
    hide NotesExported, OutputsExported, SpendsExported, InOrder, RowsAre, OutputRowsOf;
    if ios == [] {
      RowsNothing(db.outputs, RestoredOutput(m));
      assert OutputIds(FlatOutputs(ios)) == [];
    } else {
      var front, io := ios[..|ios| - 1], ios[|ios| - 1];
      PartsFront(db, ios);
      TxIdsFront(m.txs, ios, firstTx);
      AllOutputRowsAre(db, m, firstTx, front);
      OutputRowsAre(db, m, io.id, firstTx + |ios| - 1, io.outputs);
      assert OutputIds(FlatOutputs(ios)) == OutputIds(FlatOutputs(front)) + OutputIds(io.outputs);
      RowsJoin(db.outputs, OutputIds(FlatOutputs(front)), OutputRows(m.c, firstTx, front),
               OutputIds(io.outputs), OutputRowsOf(m.c, firstTx + |ios| - 1, io.outputs), RestoredOutput(m));
    }
  }

  // ---------------------------------------------------------------------
  // Memos
  // ---------------------------------------------------------------------

  function MemoOfNotes(ids: seq<nat>): Memo -> bool { (r: Memo) => r.note.Some? && r.note.value in ids }
  function MemoOfOutputs(ids: seq<nat>): Memo -> bool { (r: Memo) => r.output.Some? && r.output.value in ids }
  function MemoOfTx(tx: nat): Memo -> bool { (r: Memo) => r.tx == tx }
  function MemoOfTxs(txs: seq<nat>): Memo -> bool { (r: Memo) => r.tx in txs }

  ghost predicate NotesOf(db: Db, account: nat, tx: nat, ns: seq<IONote>) {
    && NoDup(NoteIds(ns))
    && forall i | 0 <= i < |ns| ::
         NoteExported(db, ns[i]) && db.notes[ns[i].id].tx == tx && db.notes[ns[i].id].account == account
  }

  /** The one memo of a note, or none. */
  lemma MemoOfOneNote(db: Db, m: Relocation, account: nat, tx: nat, n: IONote) returns (ids: seq<nat>)
    requires Intact(db) && NoteExported(db, n) && db.notes[n.id].tx == tx && db.notes[n.id].account == account
    requires tx in m.txs && n.id in m.notes
    ensures Lists(ids, db.memos, MemoOfNote(n.id))
    ensures if n.vout.Some? && n.memoBytes.Some? then |ids| == 1 && ids[0] in db.memos
              && NoteMemo(m.c, m.txs[tx], m.notes[n.id], n) == RestoredMemo(m)(db.memos[ids[0]])
            else ids == []
  {
    if n.vout.Some? {
      var k := MemoBehindNote(db, tx, n);
      ids := [k];
    } else {
      ids := [];
    }
  }

  lemma {:induction false} NoteMemosListed(db: Db, m: Relocation, account: nat, tx: nat, first: nat, ns: seq<IONote>)
    returns (ids: seq<nat>)
    requires Intact(db) && NotesOf(db, account, tx, ns) && tx in m.txs && InOrder(m.notes, NoteIds(ns), first)
    ensures Lists(ids, db.memos, MemoOfNotes(NoteIds(ns)))
    ensures RowsAre(db.memos, ids, NoteMemosOf(m.c, m.txs[tx], first, ns), RestoredMemo(m))
  {
    hide Intact, NoteExported, Lists, RowsAre, InOrder, NoteMemo, RestoredMemo;
    if ns == [] {
      ids := [];
      ListsNothing(db.memos, MemoOfNotes(NoteIds(ns)));
      RowsNothing(db.memos, RestoredMemo(m));
    } else {
      var front, n := ns[..|ns| - 1], ns[|ns| - 1];
      NotesFront(db, account, tx, ns);
      InOrderParts(m.notes, NoteIds(front), [n.id], first);
      var before := NoteMemosListed(db, m, account, tx, first, front);
      InOrderLast(m.notes, n.id, first + |front|);
      var here := MemoOfOneNote(db, m, account, tx, n);
      ids := before + here;
      ListsJoin(before, here, db.memos, MemoOfNotes(NoteIds(front)), MemoOfNote(n.id), MemoOfNotes(NoteIds(ns)));
      var rows := if n.vout.Some? && n.memoBytes.Some? then [NoteMemo(m.c, m.txs[tx], first + |front|, n)] else [];
      assert RowsAre(db.memos, here, rows, RestoredMemo(m)) by { RowsOneOrNone(db.memos, here, rows, RestoredMemo(m)); }
      RowsJoin(db.memos, before, NoteMemosOf(m.c, m.txs[tx], first, front), here, rows, RestoredMemo(m));
    }
  }

  lemma RowsOneOrNone<T(!new)>(s: Table<T>, ids: seq<nat>, rows: seq<T>, tr: T -> T)
    requires |ids| == |rows| <= 1 && (|ids| == 1 ==> ids[0] in s && rows[0] == tr(s[ids[0]]))
    ensures RowsAre(s, ids, rows, tr)
  {
  }

  lemma InOrderLast(m: map<nat, nat>, id: nat, first: nat)
    requires InOrder(m, [id], first)
    ensures id in m && m[id] == first
  {
    assert [id][0] in m;
  }

  lemma NotesFront(db: Db, account: nat, tx: nat, ns: seq<IONote>)
    requires NotesOf(db, account, tx, ns) && ns != []
    ensures var front, n := ns[..|ns| - 1], ns[|ns| - 1];
            && NotesOf(db, account, tx, front) && NoteIds(ns) == NoteIds(front) + [n.id]
            && NoteExported(db, n) && db.notes[n.id].tx == tx && db.notes[n.id].account == account
            && n.id !in NoteIds(front)
  {
    hide NoteExported;
    var front, ids := ns[..|ns| - 1], NoteIds(ns);
    assert ids == NoteIds(front) + [ns[|ns| - 1].id] && ids[..|front|] == NoteIds(front);
    assert forall i | 0 <= i < |front| :: NoteIds(front)[i] == ids[i] != ids[|front|];
  }

  lemma MemoOfOneOutput(db: Db, m: Relocation, tx: nat, o: IOOutput) returns (ids: seq<nat>)
    requires Intact(db) && OutputExported(db, o) && db.outputs[o.id].tx == tx
    requires tx in m.txs && o.id in m.outputs
    ensures Lists(ids, db.memos, MemoOfOutput(o.id))
    ensures if o.memoBytes.Some? then |ids| == 1 && ids[0] in db.memos
              && OutputMemo(m.c, m.txs[tx], m.outputs[o.id], o) == RestoredMemo(m)(db.memos[ids[0]])
            else ids == []
  {
    if o.memoBytes.Some? {
      var k := MemoBehindOutput(db, tx, o);
      ids := [k];
      OneMemoOfOutput(db, o.id);
    } else {
      ids := [];
    }
  }

  lemma OneMemoOfOutput(db: Db, o: nat)
    requires Intact(db)
    ensures forall i, j | i in db.memos && j in db.memos && db.memos[i].output == Some(o)
            && db.memos[j].output == Some(o) :: i == j
  {
    IntactHasOneMemoEach(db);
  }

  ghost predicate OutputsIn(db: Db, tx: nat, os: seq<IOOutput>) {
    && NoDup(OutputIds(os))
    && forall i | 0 <= i < |os| :: OutputExported(db, os[i]) && db.outputs[os[i].id].tx == tx
  }

  lemma OutputsFront(db: Db, tx: nat, os: seq<IOOutput>)
    requires OutputsIn(db, tx, os) && os != []
    ensures var front, o := os[..|os| - 1], os[|os| - 1];
            && OutputsIn(db, tx, front) && OutputIds(os) == OutputIds(front) + [o.id]
            && OutputExported(db, o) && db.outputs[o.id].tx == tx && o.id !in OutputIds(front)
  {
    hide OutputExported;
    var front, ids := os[..|os| - 1], OutputIds(os);
    assert ids == OutputIds(front) + [os[|os| - 1].id] && ids[..|front|] == OutputIds(front);
    assert forall i | 0 <= i < |front| :: OutputIds(front)[i] == ids[i] != ids[|front|];
  }

  lemma {:induction false} OutputMemosListed(db: Db, m: Relocation, tx: nat, first: nat, os: seq<IOOutput>)
    returns (ids: seq<nat>)
    requires Intact(db) && OutputsIn(db, tx, os) && tx in m.txs && InOrder(m.outputs, OutputIds(os), first)
    ensures Lists(ids, db.memos, MemoOfOutputs(OutputIds(os)))
    ensures RowsAre(db.memos, ids, OutputMemosOf(m.c, m.txs[tx], first, os), RestoredMemo(m))
  {
    hide Intact, OutputExported, Lists, RowsAre, InOrder, OutputMemo, RestoredMemo;
    if os == [] {
      ids := [];
      ListsNothing(db.memos, MemoOfOutputs(OutputIds(os)));
      RowsNothing(db.memos, RestoredMemo(m));
    } else {
      var front, o := os[..|os| - 1], os[|os| - 1];
      OutputsFront(db, tx, os);
      InOrderParts(m.outputs, OutputIds(front), [o.id], first);
      var before := OutputMemosListed(db, m, tx, first, front);
      InOrderLast(m.outputs, o.id, first + |front|);
      var here := MemoOfOneOutput(db, m, tx, o);
      ids := before + here;
      ListsJoin(before, here, db.memos, MemoOfOutputs(OutputIds(front)), MemoOfOutput(o.id),
          MemoOfOutputs(OutputIds(os)));
      var rows := if o.memoBytes.Some? then [OutputMemo(m.c, m.txs[tx], first + |front|, o)] else [];
      assert RowsAre(db.memos, here, rows, RestoredMemo(m)) by { RowsOneOrNone(db.memos, here, rows, RestoredMemo(m)); }
      RowsJoin(db.memos, before, OutputMemosOf(m.c, m.txs[tx], first, front), here, rows, RestoredMemo(m));
    }
  }

  lemma TxNotesOf(db: Db, io: IOTx)
    requires Intact(db) && TxExported(db, io)
    ensures io.id in db.txs
    ensures NotesOf(db, db.txs[io.id].account, io.id, io.notes) && OutputsIn(db, io.id, io.outputs)
    ensures forall n | n in db.notes :: n in NoteIds(io.notes) <==> db.notes[n].tx == io.id
    ensures forall o | o in db.outputs :: o in OutputIds(io.outputs) <==> db.outputs[o].tx == io.id
  {
    hide NoteMemoExported, OutputMemoExported, SpendsExported, Intact;
    forall i | 0 <= i < |io.notes|
      ensures NoteExported(db, io.notes[i]) && db.notes[io.notes[i].id].tx == io.id
      ensures db.notes[io.notes[i].id].account == db.txs[io.id].account
    {
      NotesInTx(db, io.id, io.notes, i);
      NoteInItsTx(db, io.notes[i].id);
    }
    forall i | 0 <= i < |io.outputs|
      ensures OutputExported(db, io.outputs[i]) && db.outputs[io.outputs[i].id].tx == io.id
    {
      OutputsInTx(db, io.id, io.outputs, i);
    }
    assert forall i | 0 <= i < |io.notes| :: NoteOfTx(io.id)(db.notes[NoteIds(io.notes)[i]]);
    assert forall i | 0 <= i < |io.outputs| :: OutputOfTx(io.id)(db.outputs[OutputIds(io.outputs)[i]]);
  }

  lemma NoteInItsTx(db: Db, n: nat)
    requires Intact(db) && n in db.notes
    ensures db.notes[n].tx in db.txs && db.txs[db.notes[n].tx].account == db.notes[n].account
  {
    assert NoteIntact(db, db.notes[n]);
  }

  lemma MemosOfTxListed(db: Db, m: Relocation, firstNote: nat, firstOutput: nat, io: IOTx) returns (ids: seq<nat>)
    requires Intact(db) && TxExported(db, io) && io.id in m.txs
    requires InOrder(m.notes, NoteIds(io.notes), firstNote) && InOrder(m.outputs, OutputIds(io.outputs), firstOutput)
    ensures Lists(ids, db.memos, MemoOfTx(io.id))
    ensures RowsAre(db.memos, ids, MemosOf(m.c, m.txs[io.id], firstNote, firstOutput, io), RestoredMemo(m))
  {
    hide TxExported, Lists, RowsAre, InOrder, NotesOf, OutputsIn, NoteMemosOf, OutputMemosOf, RestoredMemo;
    TxNotesOf(db, io);
    var l := NoteMemosListed(db, m, db.txs[io.id].account, io.id, firstNote, io.notes);
    var r := OutputMemosListed(db, m, io.id, firstOutput, io.outputs);
    ids := l + r;
    forall k | k in db.memos
      ensures var row := db.memos[k];
              MemoOfTx(io.id)(row) == (MemoOfNotes(NoteIds(io.notes))(row) || MemoOfOutputs(OutputIds(io.outputs))(row))
              && !(MemoOfNotes(NoteIds(io.notes))(row) && MemoOfOutputs(OutputIds(io.outputs))(row))
    {
      assert MemoIntact(db, db.memos[k]);
    }
    ListsJoin(l, r, db.memos, MemoOfNotes(NoteIds(io.notes)), MemoOfOutputs(OutputIds(io.outputs)), MemoOfTx(io.id));
    RowsJoin(db.memos, l, NoteMemosOf(m.c, m.txs[io.id], firstNote, io.notes), r,
        OutputMemosOf(m.c, m.txs[io.id], firstOutput, io.outputs), RestoredMemo(m));
  }

  lemma {:induction false} AllMemosListed(db: Db, m: Relocation, firstTx: nat, firstNote: nat, firstOutput: nat,
          ios: seq<IOTx>) returns (ids: seq<nat>)
    requires Intact(db) && TxPartsExported(db, ios) && InOrder(m.txs, TxIds(ios), firstTx)
    requires InOrder(m.notes, NoteIds(FlatNotes(ios)), firstNote)
             && InOrder(m.outputs, OutputIds(FlatOutputs(ios)), firstOutput)
    ensures Lists(ids, db.memos, MemoOfTxs(TxIds(ios)))
    ensures RowsAre(db.memos, ids, MemoRows(m.c, firstTx, firstNote, firstOutput, ios), RestoredMemo(m))
  {
    hide Intact, TxExported, Lists, RowsAre, RestoredMemo, TxPartsExported, InOrder, MemosOf;
    if ios == [] {
      ids := [];
      ListsNothing(db.memos, MemoOfTxs(TxIds(ios)));
      RowsNothing(db.memos, RestoredMemo(m));
    } else {
      var front, io := ios[..|ios| - 1], ios[|ios| - 1];
      PartsFront(db, ios);
      TxIdsFront(m.txs, ios, firstTx);
      LastTxIn(m.txs, ios, firstTx);
      assert NoteIds(FlatNotes(ios)) == NoteIds(FlatNotes(front)) + NoteIds(io.notes);
      assert OutputIds(FlatOutputs(ios)) == OutputIds(FlatOutputs(front)) + OutputIds(io.outputs);
      InOrderParts(m.notes, NoteIds(FlatNotes(front)), NoteIds(io.notes), firstNote);
      InOrderParts(m.outputs, OutputIds(FlatOutputs(front)), OutputIds(io.outputs), firstOutput);
      var before := AllMemosListed(db, m, firstTx, firstNote, firstOutput, front);
      var here := MemosOfTxListed(db, m, firstNote + |FlatNotes(front)|, firstOutput + |FlatOutputs(front)|, io);
      ids := before + here;
      ListsJoin(before, here, db.memos, MemoOfTxs(TxIds(front)), MemoOfTx(io.id), MemoOfTxs(TxIds(ios)));
      RowsJoin(db.memos, before, MemoRows(m.c, firstTx, firstNote, firstOutput, front),
               here, MemosOf(m.c, firstTx + |front|, firstNote + |FlatNotes(front)|,
                   firstOutput + |FlatOutputs(front)|, io), RestoredMemo(m));
    }
  }

  lemma LastTxIn(m: map<nat, nat>, ios: seq<IOTx>, first: nat)
    requires ios != [] && InOrder(m, TxIds(ios), first)
    ensures ios[|ios| - 1].id in m
  {
    assert TxIds(ios)[|ios| - 1] == ios[|ios| - 1].id;
  }
}
