/**
 What an exported record is like when the database it came from is intact:
 nothing in it can collide, and every reference in it resolves inside it.
 */
module BackupRecord {
  import opened Wrappers
  import opened Tables
  import opened Schema
  import opened Backup
  import opened BackupExport
  import opened BackupFold

  // ---------------------------------------------------------------------
  // The rows of all transactions together
  // ---------------------------------------------------------------------

  function NoteOfTxs(txs: seq<nat>): Note -> bool { (r: Note) => r.tx in txs }
  function OutputOfTxs(txs: seq<nat>): Output -> bool { (r: Output) => r.tx in txs }
  function SpendOfTxs(txs: seq<nat>): Spend -> bool { (r: Spend) => r.tx in txs }

  function SpentIds(flat: seq<(nat, IOSpend)>): seq<nat> { seq(|flat|, i requires 0 <= i < |flat| => flat[i].1.idNote) }

  /** Two listings of disjoint parts of a table together list both parts. */
  lemma ListsJoin<T>(a: seq<nat>, b: seq<nat>, t: Table<T>, p: T -> bool, q: T -> bool, both: T -> bool)
    requires Lists(a, t, p) && Lists(b, t, q)
    requires forall k | k in t :: both(t[k]) == (p(t[k]) || q(t[k])) && !(p(t[k]) && q(t[k]))
    ensures Lists(a + b, t, both)
  {
    var all := a + b;
    forall i, j | 0 <= i < j < |all|
      ensures all[i] != all[j]
    {
      if i < |a| <= j {
        assert p(t[a[i]]) && q(t[b[j - |a|]]);
      }
    }
    forall k | k in t && both(t[k])
      ensures k in all
    {
      assert k in a || k in b;
    }
  }

  lemma ListsNothing<T>(t: Table<T>, p: T -> bool)
    requires forall k | k in t :: !p(t[k])
    ensures Lists([], t, p)
  {
  }

  lemma ListsSame<T>(ids: seq<nat>, t: Table<T>, p: T -> bool, q: T -> bool)
    requires Lists(ids, t, p)
    requires forall k | k in t :: p(t[k]) == q(t[k])
    ensures Lists(ids, t, q)
  {
  }

  ghost predicate TxPartsExported(db: Db, ios: seq<IOTx>) {
    NoDup(TxIds(ios)) && forall i | 0 <= i < |ios| :: TxExported(db, ios[i])
  }

  lemma PartsFront(db: Db, ios: seq<IOTx>)
    requires TxPartsExported(db, ios) && ios != []
    ensures TxPartsExported(db, ios[..|ios| - 1]) && TxExported(db, ios[|ios| - 1])
    ensures ios[|ios| - 1].id !in TxIds(ios[..|ios| - 1])
    ensures forall x :: x in TxIds(ios) <==> x in TxIds(ios[..|ios| - 1]) || x == ios[|ios| - 1].id
  {
    hide TxExported;
    var front, ids := ios[..|ios| - 1], TxIds(ios);
    assert ids == TxIds(front) + [ios[|ios| - 1].id];
    assert ids[..|front|] == TxIds(front);
    assert forall i | 0 <= i < |front| :: TxIds(front)[i] == ids[i] != ids[|front|];
  }

  lemma {:induction false} FlatNotesListed(db: Db, ios: seq<IOTx>)
    requires TxPartsExported(db, ios)
    ensures Lists(NoteIds(FlatNotes(ios)), db.notes, NoteOfTxs(TxIds(ios)))
    ensures forall k | 0 <= k < |FlatNotes(ios)| :: NoteExported(db, FlatNotes(ios)[k])
  {
    hide NoteExported, OutputsExported, SpendsExported;
    if ios == [] {
      ListsNothing(db.notes, NoteOfTxs(TxIds(ios)));
      assert NoteIds(FlatNotes(ios)) == [];
    } else {
      var front, io := ios[..|ios| - 1], ios[|ios| - 1];
      PartsFront(db, ios);
      FlatNotesListed(db, front);
      ListsJoin(NoteIds(FlatNotes(front)), NoteIds(io.notes), db.notes, NoteOfTxs(TxIds(front)), NoteOfTx(io.id),
          NoteOfTxs(TxIds(ios)));
      assert NoteIds(FlatNotes(ios)) == NoteIds(FlatNotes(front)) + NoteIds(io.notes);
    }
  }

  lemma {:induction false} FlatOutputsListed(db: Db, ios: seq<IOTx>)
    requires TxPartsExported(db, ios)
    ensures Lists(OutputIds(FlatOutputs(ios)), db.outputs, OutputOfTxs(TxIds(ios)))
    ensures forall k | 0 <= k < |FlatOutputs(ios)| :: OutputExported(db, FlatOutputs(ios)[k])
  {
    hide OutputExported, NotesExported, SpendsExported;
    if ios == [] {
      ListsNothing(db.outputs, OutputOfTxs(TxIds(ios)));
      assert OutputIds(FlatOutputs(ios)) == [];
    } else {
      var front, io := ios[..|ios| - 1], ios[|ios| - 1];
      PartsFront(db, ios);
      FlatOutputsListed(db, front);
      ListsJoin(OutputIds(FlatOutputs(front)), OutputIds(io.outputs), db.outputs,
                OutputOfTxs(TxIds(front)), OutputOfTx(io.id), OutputOfTxs(TxIds(ios)));
      assert OutputIds(FlatOutputs(ios)) == OutputIds(FlatOutputs(front)) + OutputIds(io.outputs);
    }
  }

  ghost predicate FlatSpendExported(db: Db, f: (nat, IOSpend)) {
    SpendExported(db, f.1) && db.spends[f.1.idNote].tx == f.0
  }

  lemma {:induction false} FlatSpendsListed(db: Db, ios: seq<IOTx>)
    requires TxPartsExported(db, ios)
    ensures Lists(SpentIds(FlatSpends(ios)), db.spends, SpendOfTxs(TxIds(ios)))
    ensures forall k | 0 <= k < |FlatSpends(ios)| :: FlatSpendExported(db, FlatSpends(ios)[k])
  {
    hide SpendExported, NotesExported, OutputsExported;
    if ios == [] {
      ListsNothing(db.spends, SpendOfTxs(TxIds(ios)));
      assert SpentIds(FlatSpends(ios)) == [];
    } else {
      var front, io := ios[..|ios| - 1], ios[|ios| - 1];
      PartsFront(db, ios);
      FlatSpendsListed(db, front);
      assert SpentIds(Tagged(io.id, io.spends)) == SpendIds(io.spends);
      TaggedExported(db, io);
      ListsJoin(SpentIds(FlatSpends(front)), SpendIds(io.spends), db.spends,
                SpendOfTxs(TxIds(front)), SpendOfTx(io.id), SpendOfTxs(TxIds(ios)));
      assert SpentIds(FlatSpends(ios)) == SpentIds(FlatSpends(front)) + SpentIds(Tagged(io.id, io.spends));
    }
  }

  lemma TaggedExported(db: Db, io: IOTx)
    requires SpendsExported(db, io.id, io.spends)
    ensures forall k | 0 <= k < |io.spends| :: FlatSpendExported(db, Tagged(io.id, io.spends)[k])
  {
    forall k | 0 <= k < |io.spends|
      ensures FlatSpendExported(db, Tagged(io.id, io.spends)[k])
    {
      assert SpendIds(io.spends)[k] == io.spends[k].idNote;
      assert SpendOfTx(io.id)(db.spends[io.spends[k].idNote]);
    }
  }

  // ---------------------------------------------------------------------
  // All history of the account
  // ---------------------------------------------------------------------

  lemma TxIdsOfAccount(db: Db, account: nat, io: IOAccount)
    requires Exported(db, account, io)
    ensures TxPartsExported(db, io.txs)
    ensures forall x :: x in TxIds(io.txs) <==> x in db.txs && db.txs[x].account == account
  {
    hide TxExported, SharedExported, TaddrsExported, SyncHeightsExported, UserMemosExported, BlocksExported;
  }

  lemma NotesOfAccount(db: Db, account: nat, io: IOAccount)
    requires Intact(db) && Exported(db, account, io)
    ensures Lists(NoteIds(FlatNotes(io.txs)), db.notes, NoteOf(account))
    ensures forall k | 0 <= k < |FlatNotes(io.txs)| :: NoteExported(db, FlatNotes(io.txs)[k])
  {
    TxIdsOfAccount(db, account, io);
    FlatNotesListed(db, io.txs);
    hide Exported, Lists, TxPartsExported, NoteExported;
    forall k | k in db.notes
      ensures NoteOfTxs(TxIds(io.txs))(db.notes[k]) == NoteOf(account)(db.notes[k])
    {
      assert NoteIntact(db, db.notes[k]);
    }
    ListsSame(NoteIds(FlatNotes(io.txs)), db.notes, NoteOfTxs(TxIds(io.txs)), NoteOf(account));
  }

  lemma OutputsOfAccount(db: Db, account: nat, io: IOAccount)
    requires Intact(db) && Exported(db, account, io)
    ensures Lists(OutputIds(FlatOutputs(io.txs)), db.outputs, OutputOf(account))
    ensures forall k | 0 <= k < |FlatOutputs(io.txs)| :: OutputExported(db, FlatOutputs(io.txs)[k])
  {
    TxIdsOfAccount(db, account, io);
    FlatOutputsListed(db, io.txs);
    hide Exported, Lists, TxPartsExported, OutputExported;
    forall k | k in db.outputs
      ensures OutputOfTxs(TxIds(io.txs))(db.outputs[k]) == OutputOf(account)(db.outputs[k])
    {
      assert OutputIntact(db, db.outputs[k]);
    }
    ListsSame(OutputIds(FlatOutputs(io.txs)), db.outputs, OutputOfTxs(TxIds(io.txs)), OutputOf(account));
  }

  lemma SpendsOfAccount(db: Db, account: nat, io: IOAccount)
    requires Intact(db) && Exported(db, account, io)
    ensures Lists(SpentIds(FlatSpends(io.txs)), db.spends, SpendOf(account))
    ensures forall k | 0 <= k < |FlatSpends(io.txs)| :: FlatSpendExported(db, FlatSpends(io.txs)[k])
  {
    TxIdsOfAccount(db, account, io);
    FlatSpendsListed(db, io.txs);
    hide Exported, Lists, TxPartsExported, FlatSpendExported;
    forall k | k in db.spends
      ensures SpendOfTxs(TxIds(io.txs))(db.spends[k]) == SpendOf(account)(db.spends[k])
    {
      assert SpendIntact(db, k, db.spends[k]);
    }
    ListsSame(SpentIds(FlatSpends(io.txs)), db.spends, SpendOfTxs(TxIds(io.txs)), SpendOf(account));
  }

  // ---------------------------------------------------------------------
  // No collisions
  // ---------------------------------------------------------------------

  lemma TaddrsDistinct(db: Db, account: nat, ios: seq<IOTaddr>)
    requires Unique(db.taddrs, TaddrKey) && TaddrsExported(db, account, ios)
    ensures DistinctTaddrs(ios)
  {
    var ids := TaddrIds(ios);
    forall i, j | 0 <= i < j < |ios|
      ensures (ios[i].cols.scope, ios[i].cols.dindex) != (ios[j].cols.scope, ios[j].cols.dindex)
    {
      assert ids[i] != ids[j];
      assert TaddrOf(account)(db.taddrs[ids[i]]) && TaddrOf(account)(db.taddrs[ids[j]]);
      assert TaddrKey(db.taddrs[ids[i]]) != TaddrKey(db.taddrs[ids[j]]);
    }
  }

  lemma TxidsDistinct(db: Db, account: nat, ios: seq<IOTx>)
    requires Unique(db.txs, TxKey) && TxsExported(db, account, ios)
    ensures DistinctTxids(ios)
  {
    hide NotesExported, OutputsExported, SpendsExported;
    var ids := TxIds(ios);
    forall i, j | 0 <= i < j < |ios|
      ensures ios[i].cols.txid != ios[j].cols.txid
    {
      assert ids[i] != ids[j];
      assert TxOf(account)(db.txs[ids[i]]) && TxOf(account)(db.txs[ids[j]]);
      assert TxKey(db.txs[ids[i]]) != TxKey(db.txs[ids[j]]);
    }
  }

  lemma NullifiersDistinct(db: Db, account: nat, ns: seq<IONote>)
    requires Unique(db.notes, NoteKey) && Lists(NoteIds(ns), db.notes, NoteOf(account))
    requires forall k | 0 <= k < |ns| :: NoteExported(db, ns[k])
    ensures DistinctNullifiers(ns)
  {
    hide NoteMemoExported;
    var ids := NoteIds(ns);
    forall i, j | 0 <= i < j < |ns|
      ensures ns[i].cols.nullifier != ns[j].cols.nullifier
    {
      assert ids[i] != ids[j];
      assert NoteOf(account)(db.notes[ids[i]]) && NoteOf(account)(db.notes[ids[j]]);
      assert NoteKey(db.notes[ids[i]]) != NoteKey(db.notes[ids[j]]);
    }
  }

  lemma PlacesDistinct(db: Db, tx: nat, os: seq<IOOutput>)
    requires Unique(db.outputs, OutputKey) && OutputsExported(db, tx, os)
    ensures DistinctPlaces(os)
  {
    hide OutputMemoExported;
    var ids := OutputIds(os);
    forall i, j | 0 <= i < j < |os|
      ensures (os[i].cols.pool, os[i].cols.vout) != (os[j].cols.pool, os[j].cols.vout)
    {
      assert ids[i] != ids[j];
      assert OutputOfTx(tx)(db.outputs[ids[i]]) && OutputOfTx(tx)(db.outputs[ids[j]]);
      assert OutputKey(db.outputs[ids[i]]) != OutputKey(db.outputs[ids[j]]);
    }
  }

  /** The memo row behind the memo columns of a note. */
  lemma MemoBehindNote(db: Db, tx: nat, n: IONote) returns (m: nat)
    requires Intact(db) && NoteExported(db, n) && db.notes[n.id].tx == tx && n.vout.Some?
    ensures m in db.memos && db.memos[m].note == Some(n.id) && db.memos[m].output == None
            && n.memoBytes == Some(db.memos[m].bytes)
    ensures MemoKey(db.memos[m]) == (tx, n.cols.pool, n.vout.value)
    ensures db.memos[m].text == n.memoText && db.memos[m].account == db.notes[n.id].account
    ensures db.memos[m].height == n.cols.height
  {
    m :| m in db.memos && db.memos[m].note == Some(n.id) && n.vout == Some(db.memos[m].vout)
         && n.memoText == db.memos[m].text && n.memoBytes == Some(db.memos[m].bytes);
    assert MemoIntact(db, db.memos[m]);
  }

  lemma MemoBehindOutput(db: Db, tx: nat, o: IOOutput) returns (m: nat)
    requires Intact(db) && OutputExported(db, o) && db.outputs[o.id].tx == tx && o.memoBytes.Some?
    ensures m in db.memos && db.memos[m].output == Some(o.id) && db.memos[m].note == None
            && o.memoBytes == Some(db.memos[m].bytes)
    ensures MemoKey(db.memos[m]) == (tx, o.cols.pool, o.cols.vout)
    ensures db.memos[m].text == o.memoText && db.memos[m].account == db.outputs[o.id].account
    ensures db.memos[m].height == o.cols.height
  {
    m :| m in db.memos && db.memos[m].output == Some(o.id)
         && o.memoText == db.memos[m].text && o.memoBytes == Some(db.memos[m].bytes);
    assert MemoIntact(db, db.memos[m]);
  }

  lemma NotesInTx(db: Db, tx: nat, ns: seq<IONote>, i: nat)
    requires NotesExported(db, tx, ns) && i < |ns|
    ensures NoteExported(db, ns[i]) && db.notes[ns[i].id].tx == tx
    ensures forall j | 0 <= j < |ns| && j != i :: ns[j].id != ns[i].id
  {
    hide NoteMemoExported;
    var ids := NoteIds(ns);
    assert NoteOfTx(tx)(db.notes[ids[i]]);
    assert forall j | 0 <= j < |ns| :: ids[j] == ns[j].id;
  }

  lemma OutputsInTx(db: Db, tx: nat, os: seq<IOOutput>, i: nat)
    requires OutputsExported(db, tx, os) && i < |os|
    ensures OutputExported(db, os[i]) && db.outputs[os[i].id].tx == tx
  {
    hide OutputMemoExported;
    assert OutputOfTx(tx)(db.outputs[OutputIds(os)[i]]);
  }

  lemma NoteMemosDistinct(db: Db, tx: nat, ns: seq<IONote>)
    requires Intact(db) && NotesExported(db, tx, ns)
    ensures NoteMemosOk(ns)
  {
    hide Intact, NotesExported, NoteExported;
    forall i | 0 <= i < |ns| && ns[i].vout.Some?
      ensures ns[i].memoBytes.Some?
    {
      NotesInTx(db, tx, ns, i);
      var m := MemoBehindNote(db, tx, ns[i]);
    }
    forall i, j | 0 <= i < j < |ns| && ns[i].vout.Some? && ns[j].vout.Some?
      ensures (ns[i].cols.pool, ns[i].vout.value) != (ns[j].cols.pool, ns[j].vout.value)
    {
      NotesInTx(db, tx, ns, i);
      NotesInTx(db, tx, ns, j);
      var m := MemoBehindNote(db, tx, ns[i]);
      var m' := MemoBehindNote(db, tx, ns[j]);
      assert m != m';
      MemoKeysApart(db, m, m');
    }
  }

  lemma MemoKeysApart(db: Db, m: nat, m': nat)
    requires Intact(db) && m in db.memos && m' in db.memos && m != m'
    ensures MemoKey(db.memos[m]) != MemoKey(db.memos[m'])
  {
  }

  lemma TxIsOk(db: Db, io: IOTx)
    requires Intact(db) && TxExported(db, io)
    ensures TxOk(io)
  {
    NoteMemosDistinct(db, io.id, io.notes);
    PlacesDistinct(db, io.id, io.outputs);
    hide Intact, NotesExported, OutputsExported, SpendsExported, NoteExported, OutputExported, NoteMemosOk,
        DistinctPlaces;
    forall i, j | 0 <= i < |io.notes| && 0 <= j < |io.outputs| && io.notes[i].vout.Some?
    && io.outputs[j].memoBytes.Some?
      ensures (io.notes[i].cols.pool, io.notes[i].vout.value) != (io.outputs[j].cols.pool, io.outputs[j].cols.vout)
    {
      NotesInTx(db, io.id, io.notes, i);
      OutputsInTx(db, io.id, io.outputs, j);
      var m := MemoBehindNote(db, io.id, io.notes[i]);
      var m' := MemoBehindOutput(db, io.id, io.outputs[j]);
      assert m != m';
      MemoKeysApart(db, m, m');
    }
  }

  lemma TxsAreOk(db: Db, account: nat, io: IOAccount)
    requires Intact(db) && Exported(db, account, io)
    ensures TxsOk(io.txs)
  {
    TxidsDistinct(db, account, io.txs);
    NotesOfAccount(db, account, io);
    NullifiersDistinct(db, account, FlatNotes(io.txs));
    hide NoteExported, Lists, TxExported, TxOk, DistinctTxids, DistinctNullifiers;
    forall i | 0 <= i < |io.txs|
      ensures TxOk(io.txs[i])
    {
      TxIsOk(db, io.txs[i]);
    }
  }

  lemma AssetsDistinct(db: Db, account: nat, io: IOAccount)
    requires Constraints(db) && Exported(db, account, io)
    ensures DistinctAssets(io.assets) && NoDup(AssetIds(io.assets)) && NoDup(CategoryIds(io.categories))
  {
    hide TaddrsExported, SyncHeightsExported, TxsExported, UserMemosExported, BlocksExported;
    var ids := AssetIds(io.assets);
    forall i, j | 0 <= i < |io.assets| && 0 <= j < |io.assets| && i != j
      ensures AssetKey(io.assets[i].asset) != AssetKey(io.assets[j].asset)
              && io.assets[i].asset.base != io.assets[j].asset.base
    {
      assert ids[i] != ids[j];
      assert AssetBase(db.assets[ids[i]]) != AssetBase(db.assets[ids[j]]);
    }
  }

  // ---------------------------------------------------------------------
  // Checkpoints
  // ---------------------------------------------------------------------

  function WitnessAtAny(account: nat,
          heights: seq<nat>): Witness -> bool { (r: Witness) => r.account == account && r.height in heights }

  ghost predicate WitnessesOf(db: Db, ids: seq<nat>, ws: seq<IOWitness>) {
    |ids| == |ws| && forall i | 0 <= i < |ws| :: WitnessExported(db, ids[i], ws[i])
  }

  lemma WitnessesJoin(db: Db, a: seq<nat>, ws: seq<IOWitness>, b: seq<nat>, vs: seq<IOWitness>)
    requires WitnessesOf(db, a, ws) && WitnessesOf(db, b, vs)
    ensures WitnessesOf(db, a + b, ws + vs)
  {
  }

  lemma HeightsFront(bs: seq<IOBlock>)
    requires bs != [] && NoDup(BlockHeights(bs))
    ensures NoDup(BlockHeights(bs[..|bs| - 1])) && bs[|bs| - 1].height !in BlockHeights(bs[..|bs| - 1])
    ensures forall x :: x in BlockHeights(bs) <==> x in BlockHeights(bs[..|bs| - 1]) || x == bs[|bs| - 1].height
  {
    var front, hs := bs[..|bs| - 1], BlockHeights(bs);
    assert hs == BlockHeights(front) + [bs[|bs| - 1].height] && hs[..|front|] == BlockHeights(front);
    assert forall i | 0 <= i < |front| :: BlockHeights(front)[i] == hs[i] != hs[|front|];
  }

  lemma {:induction false} FlatWitnessesListed(db: Db, account: nat, bs: seq<IOBlock>) returns (ids: seq<nat>)
    requires NoDup(BlockHeights(bs)) && forall i | 0 <= i < |bs| :: BlockExported(db, account, bs[i])
    ensures Lists(ids, db.witnesses, WitnessAtAny(account, BlockHeights(bs))) && WitnessesOf(db, ids, FlatWitnesses(bs))
  {
    hide WitnessExported, Lists, NoDup, BlockHeights, WitnessesOf;
    if bs == [] {
      ids := [];
      assert forall x :: x !in BlockHeights(bs) by { NoHeights(); }
      ListsNothing(db.witnesses, WitnessAtAny(account, BlockHeights(bs)));
      assert WitnessesOf(db, [], []) by { NoWitnesses(db); }
    } else {
      var front, b := bs[..|bs| - 1], bs[|bs| - 1];
      HeightsFront(bs);
      assert forall i | 0 <= i < |front| :: front[i] == bs[i];
      var before := FlatWitnessesListed(db, account, front);
      var here := WitnessesHere(db, account, b);
      ids := before + here;
      ListsJoin(before, here, db.witnesses, WitnessAtAny(account, BlockHeights(front)), WitnessAt(account, b.height),
                WitnessAtAny(account, BlockHeights(bs)));
      WitnessesJoin(db, before, FlatWitnesses(front), here, b.witnesses);
    }
  }

  lemma WitnessesHere(db: Db, account: nat, b: IOBlock) returns (ids: seq<nat>)
    requires BlockExported(db, account, b)
    ensures Lists(ids, db.witnesses, WitnessAt(account, b.height)) && WitnessesOf(db, ids, b.witnesses)
  {
    ids :| WitnessesListed(db, account, b.height, ids, b.witnesses);
  }

  lemma NoHeights()
    ensures forall x :: x !in BlockHeights([])
  {
  }

  lemma NoWitnesses(db: Db)
    ensures WitnessesOf(db, [], [])
  {
  }

  lemma WitnessesOfAccount(db: Db, account: nat, io: IOAccount) returns (ids: seq<nat>)
    requires Exported(db, account, io)
    ensures Lists(ids, db.witnesses, WitnessOf(account)) && WitnessesOf(db, ids, FlatWitnesses(io.blocks))
  {
    ids := FlatWitnessesListed(db, account, io.blocks);
    hide Lists, WitnessesOf, BlockExported;
    ListsSame(ids, db.witnesses, WitnessAtAny(account, BlockHeights(io.blocks)), WitnessOf(account));
  }

  lemma WitnessesDistinct(db: Db, ids: seq<nat>, ws: seq<IOWitness>)
    requires Unique(db.witnesses, WitnessKey) && NoDup(ids) && WitnessesOf(db, ids, ws)
    ensures forall i, j | 0 <= i < j < |ws| :: (ws[i].note, ws[i].height) != (ws[j].note, ws[j].height)
  {
    forall i, j | 0 <= i < j < |ws|
      ensures (ws[i].note, ws[i].height) != (ws[j].note, ws[j].height)
    {
      assert WitnessExported(db, ids[i], ws[i]) && WitnessExported(db, ids[j], ws[j]);
      assert ids[i] != ids[j];
      assert WitnessKey(db.witnesses[ids[i]]) != WitnessKey(db.witnesses[ids[j]]);
    }
  }
}
