/**
 Referential integrity: restores, deletions and trims all keep it, and a
 deletion undoes a restore except for what it leaves behind.
 */
module BackupRuns {
  import opened Wrappers
  import opened Tables
  import opened Schema
  import opened Backup
  import opened BackupExport
  import opened BackupFold
  import opened BackupRecord
  import opened BackupRelocation
  import opened BackupRoundTrip
  import opened Wallet

  // ---------------------------------------------------------------------
  // Trims and deletions
  // ---------------------------------------------------------------------

  lemma UniqueWithout<T(!new), K(!new)>(t: Table<T>, key: T -> K, gone: T -> bool)
    requires Unique(t, key)
    ensures Unique(Without(t, gone), key)
  {
  }

  lemma ConstraintsWithout(db: Db, d': Db, taddrs: Taddr -> bool, txs: Tx -> bool, notes: Note -> bool,
          outputs: Output -> bool, memos: Memo -> bool, witnesses: Witness -> bool)
    requires Constraints(db) && d'.categories == db.categories && d'.assets == db.assets
    requires d'.taddrs == Without(db.taddrs, taddrs) && d'.txs == Without(db.txs, txs)
             && d'.notes == Without(db.notes, notes)
    requires d'.outputs == Without(db.outputs, outputs) && d'.memos == Without(db.memos, memos)
             && d'.witnesses == Without(db.witnesses, witnesses)
    ensures Constraints(d')
  {
    hide Without, Unique;
    UniqueWithout(db.taddrs, TaddrKey, taddrs);
    UniqueWithout(db.txs, TxKey, txs);
    UniqueWithout(db.notes, NoteKey, notes);
    UniqueWithout(db.outputs, OutputKey, outputs);
    UniqueWithout(db.memos, MemoKey, memos);
    UniqueWithout(db.witnesses, WitnessKey, witnesses);
  }

  lemma WithoutNone<T>(t: Table<T>)
    ensures Without(t, (r: T) => false) == t
  {
  }

  lemma TrimConstraints(db: Db, account: nat, height: nat)
    requires Constraints(db)
    ensures Constraints(Trimmed(db, account, height))
  {
    WithoutNone(db.taddrs);
    hide Without, Constraints;
    ConstraintsWithout(db, Trimmed(db, account, height), (r: Taddr) => false, TxAbove(account, height),
        NoteAbove(account, height),
                       OutputAbove(account, height), MemoAbove(account, height), WitnessAbove(account, height));
  }

  lemma DeleteConstraints(db: Db, account: nat)
    requires Constraints(db)
    ensures Constraints(Deleted(db, account))
  {
    hide Without, Constraints;
    ConstraintsWithout(db, Deleted(db, account), TaddrOf(account), TxOf(account), NoteOf(account), OutputOf(account),
        MemoOf(account), WitnessOf(account));
  }

  lemma InTxStays(db: Db, d': Db, account: nat, cut: nat, rowAccount: nat, tx: nat, height: nat)
    requires Kept(db.txs, d'.txs, TxBelow(account, cut)) && InTx(db, rowAccount, tx, height)
             && Below(account, cut, rowAccount, height)
    ensures InTx(d', rowAccount, tx, height)
  {
    assert TxBelow(account, cut)(db.txs[tx]);
  }

  lemma NoteStays(db: Db, d': Db, account: nat, cut: nat, k: nat)
    requires Pruned(db, d', account, cut) && k in d'.notes && NoteIntact(db, d'.notes[k])
    ensures NoteIntact(d', d'.notes[k])
  {
    var n := db.notes[k];
    InTxStays(db, d', account, cut, n.account, n.tx, n.cols.height);
    if n.taddress.Some? {
      assert TaddrKept(account, cut)(db.taddrs[n.taddress.value]);
    }
  }

  lemma OutputStays(db: Db, d': Db, account: nat, cut: nat, k: nat)
    requires Pruned(db, d', account, cut) && k in d'.outputs && OutputIntact(db, d'.outputs[k])
    ensures OutputIntact(d', d'.outputs[k])
  {
    var o := db.outputs[k];
    InTxStays(db, d', account, cut, o.account, o.tx, o.cols.height);
  }

  lemma MemoStays(db: Db, d': Db, account: nat, cut: nat, k: nat)
    requires Pruned(db, d', account, cut) && k in d'.memos && MemoIntact(db, d'.memos[k])
    ensures MemoIntact(d', d'.memos[k])
  {
    match (db.memos[k].note, db.memos[k].output)
    case (Some(n), None) => assert NoteBelow(account, cut)(db.notes[n]);
    case (None, Some(o)) => assert OutputBelow(account, cut)(db.outputs[o]);
  }

  lemma SpendStays(db: Db, d': Db, account: nat, cut: nat, k: nat)
    requires Pruned(db, d', account, cut) && k in d'.spends && SpendIntact(db, k, d'.spends[k])
    ensures SpendIntact(d', k, d'.spends[k])
  {
    var s := db.spends[k];
    assert NoteBelow(account, cut)(db.notes[k]);
    InTxStays(db, d', account, cut, s.account, s.tx, s.height);
  }

  lemma WitnessStays(db: Db, d': Db, account: nat, cut: nat, k: nat)
    requires Pruned(db, d', account, cut) && k in d'.witnesses && WitnessIntact(db, d'.witnesses[k])
    ensures WitnessIntact(d', d'.witnesses[k])
  {
    assert NoteBelow(account, cut)(db.notes[db.witnesses[k].note]);
  }

  /** No kept row refers to a pruned one: a reference never points to a later height or another account. */
  lemma PrunedStaysIntact(db: Db, d': Db, account: nat, cut: nat)
    requires Intact(db) && Pruned(db, d', account, cut) && Constraints(d') && Owned(d')
    ensures Intact(d')
  {
    hide Constraints, Owned, NoteIntact, OutputIntact, MemoIntact, SpendIntact, WitnessIntact;
    forall k | k in d'.notes ensures NoteIntact(d', d'.notes[k]) { NoteStays(db, d', account, cut, k); }
    forall k | k in d'.outputs ensures OutputIntact(d', d'.outputs[k]) { OutputStays(db, d', account, cut, k); }
    forall k | k in d'.memos ensures MemoIntact(d', d'.memos[k]) { MemoStays(db, d', account, cut, k); }
    forall k | k in d'.spends ensures SpendIntact(d', k, d'.spends[k]) { SpendStays(db, d', account, cut, k); }
    forall k | k in d'.witnesses ensures WitnessIntact(d', d'.witnesses[k]) { WitnessStays(db, d', account, cut, k); }
  }

  lemma TrimKeepsIntact(db: Db, account: nat, height: nat)
    requires Intact(db)
    ensures Intact(Trimmed(db, account, height))
  {
    TrimConstraints(db, account, height);
    TrimPrunes(db, account, height);
    TrimKeepsOwned(db, account, height);
    hide *;
    PrunedStaysIntact(db, Trimmed(db, account, height), account, height + 1);
  }

  lemma TrimKeepsOwned(db: Db, account: nat, height: nat)
    requires Owned(db)
    ensures Owned(Trimmed(db, account, height))
  {
  }

  lemma DeleteKeepsOwned(db: Db, account: nat)
    requires Owned(db)
    ensures Owned(Deleted(db, account))
  {
  }

  /** No dangling reference is left, and exactly the rows of other accounts are kept. */
  lemma DeleteKeepsIntact(db: Db, account: nat)
    requires Intact(db)
    ensures Intact(Deleted(db, account)) && Pruned(db, Deleted(db, account), account, 0)
  {
    DeleteConstraints(db, account);
    DeletePrunes(db, account);
    DeleteKeepsOwned(db, account);
    hide *;
    PrunedStaysIntact(db, Deleted(db, account), account, 0);
  }

  // ---------------------------------------------------------------------
  // Restores
  // ---------------------------------------------------------------------

  /** Copied rows keep a key unique when the translation keeps keys apart from each other and from the stored ones. */
  lemma UniqueCopied<T(!new), K(!new)>(s: Table<T>, p: T -> bool, d: Table<T>, d': Table<T>, tr: T -> T, m: map<nat,
          nat>, key: T -> K)
    requires Copied(s, p, d, d', tr, m) && Unique(s, key) && Unique(d, key)
    requires forall a, b | a in m && b in m && key(tr(s[a])) == key(tr(s[b])) :: key(s[a]) == key(s[b])
    requires forall a, k | a in m && k in d :: key(tr(s[a])) != key(d[k])
    ensures Unique(d', key)
  {
    forall i | i in d' && i !in d
      ensures forall k | k in d :: key(d'[i]) != key(d[k])
    {
      var a :| a in m && m[a] == i;
      assert d'[i] == tr(s[a]);
    }
    forall i, j | i in d' && j in d' && i !in d && j !in d && key(d'[i]) == key(d'[j])
      ensures i == j
    {
      var a :| a in m && m[a] == i;
      var b :| b in m && m[b] == j;
      assert d'[i] == tr(s[a]) && d'[j] == tr(s[b]);
    }
  }

  /** The account of every stored row is a stored account, and its transaction a stored one. */
  ghost predicate RowsHaveHomes(d: Db) {
    && (forall k | k in d.txs :: d.txs[k].account in d.accounts)
    && (forall k | k in d.taddrs :: d.taddrs[k].account in d.accounts)
    && (forall k | k in d.notes :: d.notes[k].account in d.accounts && d.notes[k].tx in d.txs)
    && (forall k | k in d.outputs :: d.outputs[k].tx in d.txs)
    && (forall k | k in d.memos :: d.memos[k].tx in d.txs)
    && (forall k | k in d.witnesses :: d.witnesses[k].note in d.notes)
  }

  lemma IntactHasHomes(d: Db)
    requires Intact(d)
    ensures RowsHaveHomes(d)
  {
    BeforeIsFresh(d);
    hide Constraints, FreshRows;
    forall k | k in d.notes ensures d.notes[k].account in d.accounts
    && d.notes[k].tx in d.txs { assert NoteIntact(d, d.notes[k]); }
    forall k | k in d.outputs ensures d.outputs[k].tx in d.txs { assert OutputIntact(d, d.outputs[k]); }
    MemoAccounts(d);
    WitnessPlaces(d);
  }

  lemma RestoreTaddrsUnique(src: Db, account: nat, dst: Db, d': Db, m: Relocation)
    requires Constraints(src) && Constraints(dst) && RowsHaveHomes(dst) && m.c.account !in dst.accounts
    requires Copied(src.taddrs, TaddrOf(account), dst.taddrs, d'.taddrs, RestoredTaddr(m), m.c.taddrs)
    ensures Unique(d'.taddrs, TaddrKey)
  {
    UniqueCopied(src.taddrs, TaddrOf(account), dst.taddrs, d'.taddrs, RestoredTaddr(m), m.c.taddrs, TaddrKey);
  }

  lemma RestoreTxsUnique(src: Db, account: nat, dst: Db, d': Db, m: Relocation)
    requires Constraints(src) && Constraints(dst) && RowsHaveHomes(dst) && m.c.account !in dst.accounts
    requires Copied(src.txs, TxOf(account), dst.txs, d'.txs, RestoredTx(m), m.txs)
    ensures Unique(d'.txs, TxKey)
  {
    UniqueCopied(src.txs, TxOf(account), dst.txs, d'.txs, RestoredTx(m), m.txs, TxKey);
  }

  lemma RestoreNotesUnique(src: Db, account: nat, dst: Db, d': Db, m: Relocation)
    requires Constraints(src) && Constraints(dst) && RowsHaveHomes(dst) && m.c.account !in dst.accounts
    requires Copied(src.notes, NoteOf(account), dst.notes, d'.notes, RestoredNote(m), m.notes)
    ensures Unique(d'.notes, NoteKey)
  {
    UniqueCopied(src.notes, NoteOf(account), dst.notes, d'.notes, RestoredNote(m), m.notes, NoteKey);
  }

  lemma MovedApart(m: map<nat, nat>, a: nat, b: nat)
    requires Injective(m) && a in m && b in m && Moved(m, a) == Moved(m, b)
    ensures a == b
  {
  }

  lemma RestoreOutputsUnique(src: Db, account: nat, dst: Db, d': Db, m: Relocation)
    requires Intact(src) && Constraints(dst) && RowsHaveHomes(dst) && MapsReady(src, account, dst, m)
    requires Copied(src.outputs, OutputOf(account), dst.outputs, d'.outputs, RestoredOutput(m), m.outputs)
    ensures Unique(d'.outputs, OutputKey)
  {
    forall a | a in m.outputs
      ensures src.outputs[a].tx in m.txs
    {
      assert OutputIntact(src, src.outputs[a]) && OutputOf(account)(src.outputs[a]);
    }
    hide Injective;
    forall a, b | a in m.outputs && b in m.outputs
    && OutputKey(RestoredOutput(m)(src.outputs[a])) == OutputKey(RestoredOutput(m)(src.outputs[b]))
      ensures OutputKey(src.outputs[a]) == OutputKey(src.outputs[b])
    {
      MovedApart(m.txs, src.outputs[a].tx, src.outputs[b].tx);
    }
    UniqueCopied(src.outputs, OutputOf(account), dst.outputs, d'.outputs, RestoredOutput(m), m.outputs, OutputKey);
  }

  lemma RestoreMemosUnique(src: Db, account: nat, dst: Db, d': Db, m: Relocation)
    requires Intact(src) && Constraints(dst) && RowsHaveHomes(dst) && MapsReady(src, account, dst, m)
    requires MemosCopied(src, account, dst, d', m)
    ensures Unique(d'.memos, MemoKey)
  {
    var ids :| Copied(src.memos, MemoOf(account), dst.memos, d'.memos, RestoredMemo(m), ids);
    MemoAccounts(src);
    IntactMemos(src);
    hide *;
    MemosAndWitnessesUnique(dst);
    MemosApart(src, account, dst, d', m, ids);
  }

  lemma MemosApart(src: Db, account: nat, dst: Db, d': Db, m: Relocation, ids: map<nat, nat>)
    requires Unique(src.memos, MemoKey) && Unique(dst.memos, MemoKey) && RowsHaveHomes(dst)
             && MapsReady(src, account, dst, m)
    requires Copied(src.memos, MemoOf(account), dst.memos, d'.memos, RestoredMemo(m), ids)
    requires forall k | k in src.memos ::
               src.memos[k].tx in src.txs && src.txs[src.memos[k].tx].account == src.memos[k].account
    ensures Unique(d'.memos, MemoKey)
  {
    hide *;
    CopiedReady(src.memos, MemoOf(account), dst.memos, d'.memos, RestoredMemo(m), ids);
    forall a | a in ids
      ensures src.memos[a].tx in m.txs
    {
      OwnTxMoved(src, account, dst, m, src.memos[a]);
    }
    forall a, b | a in ids && b in ids
    && MemoKey(RestoredMemo(m)(src.memos[a])) == MemoKey(RestoredMemo(m)(src.memos[b]))
      ensures MemoKey(src.memos[a]) == MemoKey(src.memos[b])
    {
      MemoKeysMove(src, account, dst, m, src.memos[a], src.memos[b]);
    }
    forall a, k | a in ids && k in dst.memos
      ensures MemoKey(RestoredMemo(m)(src.memos[a])) != MemoKey(dst.memos[k])
    {
      NewMemoKey(src, account, dst, m, src.memos[a], k);
    }
    UniqueCopied(src.memos, MemoOf(account), dst.memos, d'.memos, RestoredMemo(m), ids, MemoKey);
  }

  lemma OwnTxMoved(src: Db, account: nat, dst: Db, m: Relocation, r: Memo)
    requires MapsReady(src, account, dst, m) && MemoOf(account)(r) && r.tx in src.txs
             && src.txs[r.tx].account == r.account
    ensures r.tx in m.txs
  {
  }

  lemma MemoKeysMove(src: Db, account: nat, dst: Db, m: Relocation, a: Memo, b: Memo)
    requires MapsReady(src, account, dst, m) && a.tx in m.txs && b.tx in m.txs
    requires MemoKey(RestoredMemo(m)(a)) == MemoKey(RestoredMemo(m)(b))
    ensures MemoKey(a) == MemoKey(b)
  {
    hide Injective;
    MovedApart(m.txs, a.tx, b.tx);
  }

  lemma NewMemoKey(src: Db, account: nat, dst: Db, m: Relocation, a: Memo, k: nat)
    requires MapsReady(src, account, dst, m) && RowsHaveHomes(dst) && a.tx in m.txs && k in dst.memos
    ensures MemoKey(RestoredMemo(m)(a)) != MemoKey(dst.memos[k])
  {
    hide Injective;
  }

  lemma IntactMemos(db: Db)
    requires Intact(db)
    ensures Unique(db.memos, MemoKey) && Unique(db.witnesses, WitnessKey)
  {
  }

  lemma RestoreWitnessesUnique(src: Db, account: nat, dst: Db, d': Db, m: Relocation)
    requires Intact(src) && Constraints(dst) && RowsHaveHomes(dst) && MapsReady(src, account, dst, m)
    requires WitnessesCopied(src, account, dst, d', m)
    ensures Unique(d'.witnesses, WitnessKey)
  {
    var ids :| Copied(src.witnesses, WitnessOf(account), dst.witnesses, d'.witnesses, RestoredWitness(m), ids);
    WitnessPlaces(src);
    IntactMemos(src);
    hide Intact, Constraints;
    assert Unique(dst.witnesses, WitnessKey) by { MemosAndWitnessesUnique(dst); }
    WitnessKeysApart(src, account, dst, d', m, ids);
  }

  lemma MemosAndWitnessesUnique(d: Db)
    requires Constraints(d)
    ensures Unique(d.witnesses, WitnessKey) && Unique(d.memos, MemoKey)
  {
  }

  lemma WitnessKeysApart(src: Db, account: nat, dst: Db, d': Db, m: Relocation, ids: map<nat, nat>)
    requires Unique(src.witnesses, WitnessKey) && Unique(dst.witnesses, WitnessKey) && RowsHaveHomes(dst)
             && MapsReady(src, account, dst, m)
    requires Copied(src.witnesses, WitnessOf(account), dst.witnesses, d'.witnesses, RestoredWitness(m), ids)
    requires forall k | k in src.witnesses ::
               src.witnesses[k].note in src.notes
               && src.notes[src.witnesses[k].note].account == src.witnesses[k].account
    ensures Unique(d'.witnesses, WitnessKey)
  {
    hide Injective, Unique;
    forall a | a in ids
      ensures src.witnesses[a].note in m.notes
    {
      assert WitnessOf(account)(src.witnesses[a]);
    }
    forall a, b | a in ids && b in ids
    && WitnessKey(RestoredWitness(m)(src.witnesses[a])) == WitnessKey(RestoredWitness(m)(src.witnesses[b]))
      ensures WitnessKey(src.witnesses[a]) == WitnessKey(src.witnesses[b])
    {
      MovedApart(m.notes, src.witnesses[a].note, src.witnesses[b].note);
    }
    UniqueCopied(src.witnesses, WitnessOf(account), dst.witnesses, d'.witnesses, RestoredWitness(m), ids, WitnessKey);
  }

  /** Where a row of a restored table comes from: it was there, or it is the copy of a source row. */
  lemma RowOrigin<T(!new)>(s: Table<T>, p: T -> bool, d: Table<T>, d': Table<T>, tr: T -> T, m: map<nat, nat>,
          k: nat) returns (i: nat)
    requires Copied(s, p, d, d', tr, m) && k in d'
    ensures k in d ==> d'[k] == d[k]
    ensures k !in d ==> i in m && i in s && p(s[i]) && m[i] == k && d'[k] == tr(s[i])
  {
    i := 0;
    if k !in d {
      i :| i in m && m[i] == k;
    }
  }

  lemma RowCopied<T(!new)>(s: Table<T>, p: T -> bool, d: Table<T>, d': Table<T>, tr: T -> T, m: map<nat, nat>, i: nat)
    requires Copied(s, p, d, d', tr, m) && i in s && p(s[i])
    ensures i in m && m[i] in d' && m[i] !in d && d'[m[i]] == tr(s[i])
  {
  }

  /** All rows a restored row may refer to. */
  ghost predicate Homes(src: Db, account: nat, dst: Db, d': Db, m: Relocation) {
    && Copied(src.txs, TxOf(account), dst.txs, d'.txs, RestoredTx(m), m.txs)
    && Copied(src.notes, NoteOf(account), dst.notes, d'.notes, RestoredNote(m), m.notes)
    && Copied(src.outputs, OutputOf(account), dst.outputs, d'.outputs, RestoredOutput(m), m.outputs)
    && Copied(src.taddrs, TaddrOf(account), dst.taddrs, d'.taddrs, RestoredTaddr(m), m.c.taddrs)
    && SharedRestored(src, account, dst, d', m) && HeadersKept(src, account, dst, d')
  }

  lemma InTxMoves(src: Db, account: nat, dst: Db, d': Db, m: Relocation, tx: nat, height: nat)
    requires Homes(src, account, dst, d', m) && InTx(src, account, tx, height)
    ensures tx in m.txs && InTx(d', m.c.account, Moved(m.txs, tx), height)
  {
    hide Copied, SharedRestored, HeadersKept;
    RowCopied(src.txs, TxOf(account), dst.txs, d'.txs, RestoredTx(m), m.txs, tx);
  }

  lemma NoteMoves(src: Db, account: nat, dst: Db, d': Db, m: Relocation, i: nat)
    requires Homes(src, account, dst, d', m) && i in src.notes && src.notes[i].account == account
             && NoteIntact(src, src.notes[i])
    ensures NoteIntact(d', RestoredNote(m)(src.notes[i]))
  {
    var n := src.notes[i];
    InTxMoves(src, account, dst, d', m, n.tx, n.cols.height);
    if n.taddress.Some? {
      RowCopied(src.taddrs, TaddrOf(account), dst.taddrs, d'.taddrs, RestoredTaddr(m), m.c.taddrs, n.taddress.value);
    }
  }

  lemma TableKept<T(!new)>(s: Table<T>, p: T -> bool, d: Table<T>, d': Table<T>, tr: T -> T, m: map<nat, nat>)
    requires Copied(s, p, d, d', tr, m)
    ensures Extends(d, d')
  {
  }

  lemma NoteStands(src: Db, account: nat, dst: Db, d': Db, m: Relocation, k: nat)
    requires Homes(src, account, dst, d', m) && Intact(src) && Intact(dst) && k in d'.notes
    ensures NoteIntact(d', d'.notes[k])
  {
    var i := RowOrigin(src.notes, NoteOf(account), dst.notes, d'.notes, RestoredNote(m), m.notes, k);
    if k in dst.notes {
      assert NoteIntact(dst, dst.notes[k]);
      TableKept(src.txs, TxOf(account), dst.txs, d'.txs, RestoredTx(m), m.txs);
      TableKept(src.taddrs, TaddrOf(account), dst.taddrs, d'.taddrs, RestoredTaddr(m), m.c.taddrs);
    } else {
      assert NoteIntact(src, src.notes[i]);
      NoteMoves(src, account, dst, d', m, i);
    }
  }

  lemma OutputStands(src: Db, account: nat, dst: Db, d': Db, m: Relocation, k: nat)
    requires Homes(src, account, dst, d', m) && Intact(src) && Intact(dst) && k in d'.outputs
    ensures OutputIntact(d', d'.outputs[k])
  {
    var i := RowOrigin(src.outputs, OutputOf(account), dst.outputs, d'.outputs, RestoredOutput(m), m.outputs, k);
    if k in dst.outputs {
      assert OutputIntact(dst, dst.outputs[k]);
      TableKept(src.txs, TxOf(account), dst.txs, d'.txs, RestoredTx(m), m.txs);
    } else {
      assert OutputIntact(src, src.outputs[i]);
      InTxMoves(src, account, dst, d', m, src.outputs[i].tx, src.outputs[i].cols.height);
    }
  }

  lemma MemoMoves(src: Db, account: nat, dst: Db, d': Db, m: Relocation, r: Memo)
    requires Homes(src, account, dst, d', m) && MemoIntact(src, r) && r.account == account
    ensures MemoIntact(d', RestoredMemo(m)(r))
  {
    hide Copied, SharedRestored, HeadersKept;
    match (r.note, r.output)
    case (Some(n), None) => RowCopied(src.notes, NoteOf(account), dst.notes, d'.notes, RestoredNote(m), m.notes, n);
    case (None, Some(o)) => RowCopied(src.outputs, OutputOf(account), dst.outputs, d'.outputs, RestoredOutput(m),
        m.outputs, o);
  }

  lemma MemoRests(dst: Db, d': Db, r: Memo)
    requires MemoIntact(dst, r) && Extends(dst.notes, d'.notes) && Extends(dst.outputs, d'.outputs)
    ensures MemoIntact(d', r)
  {
  }

  lemma MemoStands(src: Db, account: nat, dst: Db, d': Db, m: Relocation, ids: map<nat, nat>, k: nat)
    requires Homes(src, account, dst, d', m) && Intact(src) && Intact(dst) && k in d'.memos
    requires Copied(src.memos, MemoOf(account), dst.memos, d'.memos, RestoredMemo(m), ids)
    ensures MemoIntact(d', d'.memos[k])
  {
    var i := RowOrigin(src.memos, MemoOf(account), dst.memos, d'.memos, RestoredMemo(m), ids, k);
    if k in dst.memos {
      assert MemoIntact(dst, dst.memos[k]);
      hide *;
      HomesParts(src, account, dst, d', m);
      MemoRests(dst, d', dst.memos[k]);
    } else {
      assert MemoIntact(src, src.memos[i]);
      MemoMoves(src, account, dst, d', m, src.memos[i]);
    }
  }

  lemma HomesParts(src: Db, account: nat, dst: Db, d': Db, m: Relocation)
    requires Homes(src, account, dst, d', m)
    ensures Extends(dst.notes, d'.notes) && Extends(dst.outputs, d'.outputs) && Extends(dst.txs, d'.txs)
            && Extends(dst.headers, d'.headers)
  {
    hide Copied, SharedRestored;
    TableKept(src.txs, TxOf(account), dst.txs, d'.txs, RestoredTx(m), m.txs);
    TableKept(src.notes, NoteOf(account), dst.notes, d'.notes, RestoredNote(m), m.notes);
    TableKept(src.outputs, OutputOf(account), dst.outputs, d'.outputs, RestoredOutput(m), m.outputs);
  }

  lemma SpendMoves(src: Db, account: nat, dst: Db, d': Db, m: Relocation, i: nat)
    requires Homes(src, account, dst, d', m) && i in src.spends && src.spends[i].account == account
             && SpendIntact(src, i, src.spends[i])
    ensures i in m.notes && SpendIntact(d', m.notes[i], RestoredSpend(m)(src.spends[i]))
  {
    hide Copied, SharedRestored, HeadersKept;
    InTxMoves(src, account, dst, d', m, src.spends[i].tx, src.spends[i].height);
    RowCopied(src.notes, NoteOf(account), dst.notes, d'.notes, RestoredNote(m), m.notes, i);
  }

  lemma SpendRests(dst: Db, d': Db, k: nat, s: Spend)
    requires SpendIntact(dst, k, s) && Extends(dst.notes, d'.notes) && Extends(dst.txs, d'.txs)
    ensures SpendIntact(d', k, s)
  {
  }

  lemma SpendStands(src: Db, account: nat, dst: Db, d': Db, m: Relocation, k: nat)
    requires Homes(src, account, dst, d', m) && Intact(src) && Intact(dst) && k in d'.spends
    requires Copied(src.spends, SpendOf(account), dst.spends, d'.spends, RestoredSpend(m), SpentMap(src, account, m))
    ensures SpendIntact(d', k, d'.spends[k])
  {
    hide *;
    SpendsIntact(src);
    SpendsIntact(dst);
    var i := RowOrigin(src.spends, SpendOf(account), dst.spends, d'.spends, RestoredSpend(m),
        SpentMap(src, account, m), k);
    if k in dst.spends {
      HomesParts(src, account, dst, d', m);
      SpendRests(dst, d', k, dst.spends[k]);
    } else {
      SpentAt(src, account, m, i);
      SpendMoves(src, account, dst, d', m, i);
    }
  }

  lemma SpentAt(src: Db, account: nat, m: Relocation, i: nat)
    requires i in SpentMap(src, account, m)
    ensures i in src.spends && src.spends[i].account == account && i in m.notes
            && SpentMap(src, account, m)[i] == m.notes[i]
  {
  }

  lemma WitnessStands(src: Db, account: nat, dst: Db, d': Db, m: Relocation, ids: map<nat, nat>, k: nat)
    requires Homes(src, account, dst, d', m) && Intact(src) && Intact(dst) && k in d'.witnesses
    requires Copied(src.witnesses, WitnessOf(account), dst.witnesses, d'.witnesses, RestoredWitness(m), ids)
    ensures WitnessIntact(d', d'.witnesses[k])
  {
    var i := RowOrigin(src.witnesses, WitnessOf(account), dst.witnesses, d'.witnesses, RestoredWitness(m), ids, k);
    if k in dst.witnesses {
      assert WitnessIntact(dst, dst.witnesses[k]);
      HomesParts(src, account, dst, d', m);
    } else {
      assert WitnessIntact(src, src.witnesses[i]);
      hide Intact, Copied, SharedRestored;
      RowCopied(src.notes, NoteOf(account), dst.notes, d'.notes, RestoredNote(m), m.notes, src.witnesses[i].note);
    }
  }

  lemma RestoreOneMemo(src: Db, account: nat, dst: Db, d': Db, m: Relocation, ids: map<nat, nat>)
    requires Intact(src) && Intact(dst) && MapsReady(src, account, dst, m)
    requires Copied(src.memos, MemoOf(account), dst.memos, d'.memos, RestoredMemo(m), ids)
    ensures forall i, j | i in d'.memos && j in d'.memos && d'.memos[i].note.Some?
            && d'.memos[i].note == d'.memos[j].note :: i == j
  {
    forall i, j | i in d'.memos && j in d'.memos && d'.memos[i].note.Some? && d'.memos[i].note == d'.memos[j].note
      ensures i == j
    {
      hide *;
      var a := RowOrigin(src.memos, MemoOf(account), dst.memos, d'.memos, RestoredMemo(m), ids, i);
      var b := RowOrigin(src.memos, MemoOf(account), dst.memos, d'.memos, RestoredMemo(m), ids, j);
      if i in dst.memos && j in dst.memos {
        MemoNotesApart(dst, i, j);
      } else if i !in dst.memos && j !in dst.memos {
        SameNote(src, account, dst, m, a, b);
      } else if i in dst.memos {
        OldAndNew(src, account, dst, m, i, b);
      } else {
        OldAndNew(src, account, dst, m, j, a);
      }
    }
  }

  lemma MemoNotesApart(d: Db, i: nat, j: nat)
    requires Intact(d) && i in d.memos && j in d.memos && d.memos[i].note.Some? && d.memos[i].note == d.memos[j].note
    ensures i == j
  {
  }

  lemma RestoredMemoNote(src: Db, account: nat, dst: Db, m: Relocation, a: nat)
    requires Intact(src) && MapsReady(src, account, dst, m) && a in src.memos && MemoOf(account)(src.memos[a])
    ensures var n := RestoredMemo(m)(src.memos[a]).note;
            && n.Some? == src.memos[a].note.Some?
            && (n.Some? ==>
                 src.memos[a].note.value in m.notes && n.value == m.notes[src.memos[a].note.value]
                 && n.value !in dst.notes)
  {
    assert MemoIntact(src, src.memos[a]);
  }

  lemma SameNote(src: Db, account: nat, dst: Db, m: Relocation, a: nat, b: nat)
    requires Intact(src) && MapsReady(src, account, dst, m)
    requires a in src.memos && b in src.memos && MemoOf(account)(src.memos[a]) && MemoOf(account)(src.memos[b])
    requires RestoredMemo(m)(src.memos[a]).note.Some?
             && RestoredMemo(m)(src.memos[a]).note == RestoredMemo(m)(src.memos[b]).note
    ensures a == b
  {
    RestoredMemoNote(src, account, dst, m, a);
    RestoredMemoNote(src, account, dst, m, b);
    assert Injective(m.notes);
    hide Constraints, Owned;
    assert src.memos[a].note == src.memos[b].note;
    MemoNotesApart(src, a, b);
  }

  lemma OldAndNew(src: Db, account: nat, dst: Db, m: Relocation, i: nat, b: nat)
    requires Intact(src) && Intact(dst) && MapsReady(src, account, dst, m)
    requires i in dst.memos && b in src.memos && MemoOf(account)(src.memos[b]) && dst.memos[i].note.Some?
    ensures dst.memos[i].note != RestoredMemo(m)(src.memos[b]).note
  {
    assert MemoIntact(dst, dst.memos[i]);
    RestoredMemoNote(src, account, dst, m, b);
  }

  lemma KeysOwned(s: Table<Keys>, account: nat, d: Table<Keys>, d': Table<Keys>, a': nat, accounts: set<nat>)
    requires KeysKept(s, account, d, d', a') && d.Keys <= accounts
    ensures d'.Keys <= accounts + {a'}
  {
  }

  lemma FoldersOwned(src: Db, account: nat, dst: Db, d': Db, m: Relocation)
    requires Owned(dst) && AccountRestored(src, account, dst, d', m)
    ensures forall k | k in d'.accounts && d'.accounts[k].folder.Some? :: d'.accounts[k].folder.value in d'.folders
    ensures forall k | k in d'.syncHeights :: k.0 in d'.accounts
  {
    hide FolderName, KeysKept, Copied;
    forall k | k in d'.accounts && d'.accounts[k].folder.Some?
      ensures d'.accounts[k].folder.value in d'.folders
    {
      assert k in dst.accounts || k == m.c.account;
    }
  }

  lemma RowsOwned(src: Db, account: nat, dst: Db, d': Db, m: Relocation)
    requires RowsHaveHomes(dst) && d'.accounts.Keys == dst.accounts.Keys + {m.c.account}
    requires Copied(src.taddrs, TaddrOf(account), dst.taddrs, d'.taddrs, RestoredTaddr(m), m.c.taddrs)
    requires Copied(src.txs, TxOf(account), dst.txs, d'.txs, RestoredTx(m), m.txs)
    ensures forall k | k in d'.taddrs :: d'.taddrs[k].account in d'.accounts
    ensures forall k | k in d'.txs :: d'.txs[k].account in d'.accounts
  {
    hide Copied;
    forall k | k in d'.taddrs
      ensures d'.taddrs[k].account in d'.accounts
    {
      var i := RowOrigin(src.taddrs, TaddrOf(account), dst.taddrs, d'.taddrs, RestoredTaddr(m), m.c.taddrs, k);
    }
    forall k | k in d'.txs
      ensures d'.txs[k].account in d'.accounts
    {
      var i := RowOrigin(src.txs, TxOf(account), dst.txs, d'.txs, RestoredTx(m), m.txs, k);
    }
  }

  lemma OwnedKeys(d: Db)
    requires Owned(d)
    ensures d.tkeys.Keys <= d.accounts.Keys && d.skeys.Keys <= d.accounts.Keys && d.okeys.Keys <= d.accounts.Keys
  {
  }

  lemma AccountIsParts(src: Db, account: nat, dst: Db, d': Db, m: Relocation)
    requires Restored(src, account, dst, d', m)
    ensures AccountRestored(src, account, dst, d', m) && m.c.account !in dst.accounts
    ensures d'.accounts.Keys == dst.accounts.Keys + {m.c.account}
    ensures KeysKept(src.tkeys, account, dst.tkeys, d'.tkeys, m.c.account)
    ensures KeysKept(src.skeys, account, dst.skeys, d'.skeys, m.c.account)
    ensures KeysKept(src.okeys, account, dst.okeys, d'.okeys, m.c.account)
  {
    hide FolderName, KeysKept, Copied, SyncHeightsKept, SharedRestored, HistoryRestored, UserMemosKept, HeadersKept;
  }

  lemma RestoreOwned(src: Db, account: nat, dst: Db, d': Db, m: Relocation)
    requires Intact(src) && Intact(dst) && Restored(src, account, dst, d', m)
    ensures Owned(d')
  {
    IntactParts(src);
    IntactParts(dst);
    IntactHasHomes(dst);
    hide *;
    var accounts := dst.accounts.Keys;
    AccountIsParts(src, account, dst, d', m);
    RestoredHomes(src, account, dst, d', m);
    TxsAndTaddrs(src, account, dst, d', m);
    OwnedKeys(dst);
    KeysOwned(src.tkeys, account, dst.tkeys, d'.tkeys, m.c.account, accounts);
    KeysOwned(src.skeys, account, dst.skeys, d'.skeys, m.c.account, accounts);
    KeysOwned(src.okeys, account, dst.okeys, d'.okeys, m.c.account, accounts);
    RowsOwned(src, account, dst, d', m);
    CategoriesOwned(src, account, dst, d', m);
    FoldersOwned(src, account, dst, d', m);
    OwnedIs(d');
  }

  lemma CategoriesOwned(src: Db, account: nat, dst: Db, d': Db, m: Relocation)
    requires Owned(src) && Owned(dst) && Homes(src, account, dst, d', m)
    ensures forall k | k in d'.txs && d'.txs[k].category.Some? :: d'.txs[k].category.value in d'.categories
  {
    hide Copied, HeadersKept;
    forall k | k in d'.txs && d'.txs[k].category.Some?
      ensures d'.txs[k].category.value in d'.categories
    {
      var i := RowOrigin(src.txs, TxOf(account), dst.txs, d'.txs, RestoredTx(m), m.txs, k);
    }
  }

  lemma TxsAndTaddrs(src: Db, account: nat, dst: Db, d': Db, m: Relocation)
    requires Homes(src, account, dst, d', m)
    ensures Copied(src.taddrs, TaddrOf(account), dst.taddrs, d'.taddrs, RestoredTaddr(m), m.c.taddrs)
    ensures Copied(src.txs, TxOf(account), dst.txs, d'.txs, RestoredTx(m), m.txs)
  {
    hide Copied, SharedRestored, HeadersKept;
  }

  lemma OwnedIs(d: Db)
    requires d.tkeys.Keys <= d.accounts.Keys && d.skeys.Keys <= d.accounts.Keys && d.okeys.Keys <= d.accounts.Keys
    requires forall k | k in d.syncHeights :: k.0 in d.accounts
    requires forall k | k in d.taddrs :: d.taddrs[k].account in d.accounts
    requires forall k | k in d.txs :: d.txs[k].account in d.accounts
    requires forall k | k in d.txs && d.txs[k].category.Some? :: d.txs[k].category.value in d.categories
    requires forall k | k in d.accounts && d.accounts[k].folder.Some? :: d.accounts[k].folder.value in d.folders
    ensures Owned(d)
  {
  }

  lemma RestoreConstraints(src: Db, account: nat, dst: Db, d': Db, m: Relocation)
    requires Intact(src) && Intact(dst) && Restored(src, account, dst, d', m) && MapsReady(src, account, dst, m)
    requires Unique(d'.categories, CategoryKey) && Unique(d'.assets, AssetKey) && Unique(d'.assets, AssetBase)
    ensures Constraints(d')
  {
    IntactHasHomes(dst);
    hide Copied, MemosCopied, WitnessesCopied, SharedRestored, UserMemosKept, HeadersKept, RowsHaveHomes, MapsReady,
        Unique, Owned, KeysKept, SyncHeightsKept, FolderName;
    RestoreTaddrsUnique(src, account, dst, d', m);
    RestoreTxsUnique(src, account, dst, d', m);
    RestoreNotesUnique(src, account, dst, d', m);
    RestoreOutputsUnique(src, account, dst, d', m);
    RestoreMemosUnique(src, account, dst, d', m);
    RestoreWitnessesUnique(src, account, dst, d', m);
  }

  lemma RestoredHomes(src: Db, account: nat, dst: Db, d': Db, m: Relocation)
    requires Restored(src, account, dst, d', m)
    ensures Homes(src, account, dst, d', m) && MemosCopied(src, account, dst, d', m)
            && WitnessesCopied(src, account, dst, d', m)
    ensures Copied(src.spends, SpendOf(account), dst.spends, d'.spends, RestoredSpend(m), SpentMap(src, account, m))
  {
    hide Copied, SharedRestored, HeadersKept, UserMemosKept, SpentMap;
  }

  lemma MemosStand(src: Db, account: nat, dst: Db, d': Db, m: Relocation)
    requires Intact(src) && Intact(dst) && Homes(src, account, dst, d', m) && MemosCopied(src, account, dst, d', m)
             && MapsReady(src, account, dst, m)
    ensures forall k | k in d'.memos :: MemoIntact(d', d'.memos[k])
    ensures forall i, j | i in d'.memos && j in d'.memos && d'.memos[i].note.Some?
            && d'.memos[i].note == d'.memos[j].note :: i == j
  {
    var ids :| Copied(src.memos, MemoOf(account), dst.memos, d'.memos, RestoredMemo(m), ids);
    hide *;
    RestoreOneMemo(src, account, dst, d', m, ids);
    forall k | k in d'.memos ensures MemoIntact(d', d'.memos[k]) { MemoStands(src, account, dst, d', m, ids, k); }
  }

  lemma WitnessesStand(src: Db, account: nat, dst: Db, d': Db, m: Relocation)
    requires Intact(src) && Intact(dst) && Homes(src, account, dst, d', m) && WitnessesCopied(src, account, dst, d', m)
    ensures forall k | k in d'.witnesses :: WitnessIntact(d', d'.witnesses[k])
  {
    var ids :| Copied(src.witnesses, WitnessOf(account), dst.witnesses, d'.witnesses, RestoredWitness(m), ids);
    hide *;
    forall k | k in d'.witnesses ensures WitnessIntact(d',
        d'.witnesses[k]) { WitnessStands(src, account, dst, d', m, ids, k); }
  }

  /** A restored database is as sound as the one before: it can be exported and restored again. */
  lemma RestoreKeepsIntact(src: Db, account: nat, io: IOAccount, dst: Db, d': Db, c: Ctx, r: Rows)
    requires Intact(src) && Exported(src, account, io) && Intact(dst) && Imported(dst, io, d', c, r)
    ensures Intact(d')
  {
    hide *;
    var m := RelocationOf(dst, io, c, r);
    RoundTrip(src, account, io, dst, d', c, r);
    assert Unique(d'.categories, CategoryKey) && Unique(d'.assets, AssetKey) && Unique(d'.assets, AssetBase) by {
      SharedUnique(dst, io, d', c, r);
    }
    RestoreConstraints(src, account, dst, d', m);
    RestoreOwned(src, account, dst, d', m);
    RestoredHomes(src, account, dst, d', m);
    forall k | k in d'.notes ensures NoteIntact(d', d'.notes[k]) { NoteStands(src, account, dst, d', m, k); }
    forall k | k in d'.outputs ensures OutputIntact(d', d'.outputs[k]) { OutputStands(src, account, dst, d', m, k); }
    MemosStand(src, account, dst, d', m);
    forall k | k in d'.spends ensures SpendIntact(d', k, d'.spends[k]) { SpendStands(src, account, dst, d', m, k); }
    WitnessesStand(src, account, dst, d', m);
    IntactIs(d');
  }

  lemma SharedUnique(dst: Db, io: IOAccount, d': Db, c: Ctx, r: Rows)
    requires Imported(dst, io, d', c, r)
    ensures Unique(d'.categories, CategoryKey) && Unique(d'.assets, AssetKey) && Unique(d'.assets, AssetBase)
  {
    hide ImportedAccount, ImportedHistory;
  }

  lemma IntactIs(db: Db)
    requires Constraints(db) && Owned(db)
    requires forall k | k in db.notes :: NoteIntact(db, db.notes[k])
    requires forall k | k in db.outputs :: OutputIntact(db, db.outputs[k])
    requires forall k | k in db.memos :: MemoIntact(db, db.memos[k])
    requires forall i, j | i in db.memos && j in db.memos && db.memos[i].note.Some?
             && db.memos[i].note == db.memos[j].note :: i == j
    requires forall k | k in db.spends :: SpendIntact(db, k, db.spends[k])
    requires forall k | k in db.witnesses :: WitnessIntact(db, db.witnesses[k])
    ensures Intact(db)
  {
  }

  /** References of the rows of `account`: whatever a row points to has moved along with it. */
  ghost predicate ReferencesMoved(src: Db, account: nat, m: Relocation) {
    && (forall t | t in src.txs && src.txs[t].account == account :: Follows(m.c.categories, src.txs[t].category))
    && (forall n | n in src.notes && src.notes[n].account == account ::
          src.notes[n].tx in m.txs && Follows(m.c.taddrs, src.notes[n].taddress)
          && Follows(m.c.assets, src.notes[n].asset))
    && (forall o | o in src.outputs && src.outputs[o].account == account :: src.outputs[o].tx in m.txs)
    && (forall k | k in src.memos && src.memos[k].account == account ::
          src.memos[k].tx in m.txs && Follows(m.notes, src.memos[k].note) && Follows(m.outputs, src.memos[k].output))
    && (forall k | k in src.spends && src.spends[k].account == account :: k in m.notes && src.spends[k].tx in m.txs)
    && (forall w | w in src.witnesses && src.witnesses[w].account == account :: src.witnesses[w].note in m.notes)
  }

  predicate Follows(m: map<nat, nat>, id: Option<nat>) { id.Some? ==> id.value in m }

  /** No look-up of the import came up empty: a restored row has a reference exactly where the original has one. */
  lemma NoReferenceLost(src: Db, account: nat, dst: Db, d': Db, m: Relocation)
    requires Intact(src) && Restored(src, account, dst, d', m)
    ensures ReferencesMoved(src, account, m)
  {
    hide *;
    RestoredHomes(src, account, dst, d', m);
    IntactParts(src);
    forall t | t in src.txs && src.txs[t].account == account
      ensures Follows(m.c.categories, src.txs[t].category)
    {
      TxFollows(src, account, dst, d', m, t);
    }
    forall n | n in src.notes && src.notes[n].account == account
      ensures src.notes[n].tx in m.txs && Follows(m.c.taddrs, src.notes[n].taddress)
              && Follows(m.c.assets, src.notes[n].asset)
    {
      NoteFollows(src, account, dst, d', m, n);
    }
    forall o | o in src.outputs && src.outputs[o].account == account
      ensures src.outputs[o].tx in m.txs
    {
      OutputFollows(src, account, dst, d', m, o);
    }
    forall k | k in src.memos && src.memos[k].account == account
      ensures src.memos[k].tx in m.txs && Follows(m.notes, src.memos[k].note) && Follows(m.outputs, src.memos[k].output)
    {
      MemoFollows(src, account, dst, d', m, k);
    }
    forall k | k in src.spends && src.spends[k].account == account
      ensures k in m.notes && src.spends[k].tx in m.txs
    {
      SpendFollows(src, account, dst, d', m, k);
    }
    forall w | w in src.witnesses && src.witnesses[w].account == account
      ensures src.witnesses[w].note in m.notes
    {
      WitnessFollows(src, account, dst, d', m, w);
    }
    ReferencesAre(src, account, m);
  }

  lemma TxFollows(src: Db, account: nat, dst: Db, d': Db, m: Relocation, t: nat)
    requires Owned(src) && Homes(src, account, dst, d', m) && t in src.txs
    ensures Follows(m.c.categories, src.txs[t].category)
  {
    hide Copied, HeadersKept;
  }

  lemma ReferencesAre(src: Db, account: nat, m: Relocation)
    requires forall t | t in src.txs && src.txs[t].account == account :: Follows(m.c.categories, src.txs[t].category)
    requires forall n | n in src.notes && src.notes[n].account == account ::
               src.notes[n].tx in m.txs && Follows(m.c.taddrs, src.notes[n].taddress)
               && Follows(m.c.assets, src.notes[n].asset)
    requires forall o | o in src.outputs && src.outputs[o].account == account :: src.outputs[o].tx in m.txs
    requires forall k | k in src.memos && src.memos[k].account == account ::
               src.memos[k].tx in m.txs && Follows(m.notes, src.memos[k].note)
               && Follows(m.outputs, src.memos[k].output)
    requires forall k | k in src.spends && src.spends[k].account == account :: k in m.notes && src.spends[k].tx in m.txs
    requires forall w | w in src.witnesses && src.witnesses[w].account == account :: src.witnesses[w].note in m.notes
    ensures ReferencesMoved(src, account, m)
  {
  }

  lemma NoteFollows(src: Db, account: nat, dst: Db, d': Db, m: Relocation, n: nat)
    requires Intact(src) && Homes(src, account, dst, d', m) && n in src.notes && src.notes[n].account == account
    ensures src.notes[n].tx in m.txs && Follows(m.c.taddrs, src.notes[n].taddress)
            && Follows(m.c.assets, src.notes[n].asset)
  {
    assert NoteIntact(src, src.notes[n]);
    hide Intact;
    InTxMoves(src, account, dst, d', m, src.notes[n].tx, src.notes[n].cols.height);
  }

  lemma OutputFollows(src: Db, account: nat, dst: Db, d': Db, m: Relocation, o: nat)
    requires Intact(src) && Homes(src, account, dst, d', m) && o in src.outputs && src.outputs[o].account == account
    ensures src.outputs[o].tx in m.txs
  {
    assert OutputIntact(src, src.outputs[o]);
    hide Intact, Homes;
    InTxMoves(src, account, dst, d', m, src.outputs[o].tx, src.outputs[o].cols.height);
  }

  lemma MemoFollows(src: Db, account: nat, dst: Db, d': Db, m: Relocation, k: nat)
    requires Intact(src) && Homes(src, account, dst, d', m) && k in src.memos && src.memos[k].account == account
    ensures src.memos[k].tx in m.txs && Follows(m.notes, src.memos[k].note) && Follows(m.outputs, src.memos[k].output)
  {
    assert MemoIntact(src, src.memos[k]);
    match (src.memos[k].note, src.memos[k].output)
    case (Some(n), None) => NoteFollows(src, account, dst, d', m, n);
    case (None, Some(o)) => OutputFollows(src, account, dst, d', m, o);
  }

  lemma SpendFollows(src: Db, account: nat, dst: Db, d': Db, m: Relocation, k: nat)
    requires Intact(src) && Homes(src, account, dst, d', m) && k in src.spends && src.spends[k].account == account
    ensures k in m.notes && src.spends[k].tx in m.txs
  {
    assert SpendIntact(src, k, src.spends[k]);
    hide Intact;
    InTxMoves(src, account, dst, d', m, src.spends[k].tx, src.spends[k].height);
  }

  lemma WitnessFollows(src: Db, account: nat, dst: Db, d': Db, m: Relocation, w: nat)
    requires Intact(src) && Homes(src, account, dst, d', m) && w in src.witnesses && src.witnesses[w].account == account
    ensures src.witnesses[w].note in m.notes
  {
    assert WitnessIntact(src, src.witnesses[w]);
    hide Intact;
  }

  // ---------------------------------------------------------------------
  // A deletion undoes a restore, almost
  // ---------------------------------------------------------------------

  lemma WithoutCopies<T(!new)>(s: Table<T>, p: T -> bool, d: Table<T>, d': Table<T>, tr: T -> T, m: map<nat, nat>,
          gone: T -> bool)
    requires Copied(s, p, d, d', tr, m)
    requires (forall k | k in d :: !gone(d[k])) && forall i | i in m :: gone(tr(s[i]))
    ensures Without(d', gone) == d
  {
    assert Without(d', gone).Keys == d.Keys;
  }

  ghost predicate SameHistory(a: Db, b: Db) {
    && a.taddrs == b.taddrs && a.txs == b.txs && a.notes == b.notes && a.outputs == b.outputs && a.memos == b.memos
    && a.spends == b.spends && a.witnesses == b.witnesses
    && a.tkeys == b.tkeys && a.skeys == b.skeys && a.okeys == b.okeys && a.syncHeights == b.syncHeights
  }

  lemma AccountsOfRows(d: Db)
    requires Intact(d)
    ensures RowsHaveHomes(d)
    ensures forall k | k in d.outputs :: d.outputs[k].account in d.accounts
    ensures forall k | k in d.memos :: d.memos[k].account in d.accounts
    ensures forall k | k in d.spends :: d.spends[k].account in d.accounts
    ensures forall k | k in d.witnesses :: d.witnesses[k].account in d.accounts
  {
    IntactHasHomes(d);
    MemoAccounts(d);
    SpendPlaces(d);
    WitnessPlaces(d);
    forall k | k in d.outputs ensures d.outputs[k].account in d.accounts { assert OutputIntact(d, d.outputs[k]); }
  }

  /**
   Deleting the account just restored gives back every account-keyed table and
   the list of accounts; what stays behind is its user memos, merged categories
   and assets, headers, the folder row, and the shift of the positions.
   */
  lemma DeleteUndoesRestore(src: Db, account: nat, dst: Db, d': Db, m: Relocation)
    requires Intact(dst) && Restored(src, account, dst, d', m)
    ensures SameHistory(Deleted(d', m.c.account), dst)
    ensures Deleted(d', m.c.account).accounts == Shifted(dst.accounts)
    ensures Deleted(d', m.c.account).userMemos == d'.userMemos
  {
    hide *;
    AccountsOfRows(dst);
    AccountIsParts(src, account, dst, d', m);
    RestoredHomes(src, account, dst, d', m);
    UndoneRows(src, account, dst, d', m);
    UndoneMemos(src, account, dst, d', m);
    UndoneAccounts(src, account, dst, d', m);
    IntactParts(dst);
    OwnedKeys(dst);
    UndoneKeys(src.tkeys, account, dst.tkeys, d'.tkeys, m.c.account);
    UndoneKeys(src.skeys, account, dst.skeys, d'.skeys, m.c.account);
    UndoneKeys(src.okeys, account, dst.okeys, d'.okeys, m.c.account);
    UndoneSyncHeights(src, account, dst, d', m);
    DeletedParts(d', m.c.account);
    SameHistoryIs(Deleted(d', m.c.account), dst);
  }

  lemma SameHistoryIs(a: Db, b: Db)
    requires a.taddrs == b.taddrs && a.txs == b.txs && a.notes == b.notes && a.outputs == b.outputs
             && a.memos == b.memos
    requires a.spends == b.spends && a.witnesses == b.witnesses
    requires a.tkeys == b.tkeys && a.skeys == b.skeys && a.okeys == b.okeys && a.syncHeights == b.syncHeights
    ensures SameHistory(a, b)
  {
  }

  lemma DeletedParts(d: Db, account: nat)
    ensures var d' := Deleted(d, account);
            && d'.taddrs == Without(d.taddrs, TaddrOf(account)) && d'.txs == Without(d.txs, TxOf(account))
            && d'.notes == Without(d.notes, NoteOf(account)) && d'.outputs == Without(d.outputs, OutputOf(account))
            && d'.spends == Without(d.spends, SpendOf(account)) && d'.memos == Without(d.memos, MemoOf(account))
            && d'.witnesses == Without(d.witnesses, WitnessOf(account)) && d'.userMemos == d.userMemos
            && d'.tkeys == d.tkeys - {account} && d'.skeys == d.skeys - {account} && d'.okeys == d.okeys - {account}
  {
    hide Without;
  }

  lemma UndoneRows(src: Db, account: nat, dst: Db, d': Db, m: Relocation)
    requires RowsHaveHomes(dst) && m.c.account !in dst.accounts && Homes(src, account, dst, d', m)
    requires Copied(src.spends, SpendOf(account), dst.spends, d'.spends, RestoredSpend(m), SpentMap(src, account, m))
    requires forall k | k in dst.outputs :: dst.outputs[k].account in dst.accounts
    requires forall k | k in dst.spends :: dst.spends[k].account in dst.accounts
    ensures Without(d'.taddrs, TaddrOf(m.c.account)) == dst.taddrs && Without(d'.txs, TxOf(m.c.account)) == dst.txs
    ensures Without(d'.notes, NoteOf(m.c.account)) == dst.notes
            && Without(d'.outputs, OutputOf(m.c.account)) == dst.outputs
    ensures Without(d'.spends, SpendOf(m.c.account)) == dst.spends
  {
    hide Copied, Without, SharedRestored, HeadersKept, SpentMap;
    var a' := m.c.account;
    WithoutCopies(src.taddrs, TaddrOf(account), dst.taddrs, d'.taddrs, RestoredTaddr(m), m.c.taddrs, TaddrOf(a'));
    WithoutCopies(src.txs, TxOf(account), dst.txs, d'.txs, RestoredTx(m), m.txs, TxOf(a'));
    WithoutCopies(src.notes, NoteOf(account), dst.notes, d'.notes, RestoredNote(m), m.notes, NoteOf(a'));
    WithoutCopies(src.outputs, OutputOf(account), dst.outputs, d'.outputs, RestoredOutput(m), m.outputs, OutputOf(a'));
    WithoutCopies(src.spends, SpendOf(account), dst.spends, d'.spends, RestoredSpend(m), SpentMap(src, account, m),
        SpendOf(a'));
  }

  lemma UndoneMemos(src: Db, account: nat, dst: Db, d': Db, m: Relocation)
    requires MemosCopied(src, account, dst, d', m) && WitnessesCopied(src, account, dst, d', m)
             && m.c.account !in dst.accounts
    requires forall k | k in dst.memos :: dst.memos[k].account in dst.accounts
    requires forall k | k in dst.witnesses :: dst.witnesses[k].account in dst.accounts
    ensures Without(d'.memos, MemoOf(m.c.account)) == dst.memos
            && Without(d'.witnesses, WitnessOf(m.c.account)) == dst.witnesses
  {
    var memos :| Copied(src.memos, MemoOf(account), dst.memos, d'.memos, RestoredMemo(m), memos);
    var witnesses :| Copied(src.witnesses, WitnessOf(account), dst.witnesses, d'.witnesses, RestoredWitness(m),
        witnesses);
    hide Copied, Without;
    WithoutCopies(src.memos, MemoOf(account), dst.memos, d'.memos, RestoredMemo(m), memos, MemoOf(m.c.account));
    WithoutCopies(src.witnesses, WitnessOf(account), dst.witnesses, d'.witnesses, RestoredWitness(m), witnesses,
        WitnessOf(m.c.account));
  }

  lemma UndoneKeys(s: Table<Keys>, account: nat, d: Table<Keys>, d': Table<Keys>, a': nat)
    requires KeysKept(s, account, d, d', a') && a' !in d
    ensures d' - {a'} == d
  {
  }

  lemma UndoneSyncHeights(src: Db, account: nat, dst: Db, d': Db, m: Relocation)
    requires AccountRestored(src, account, dst, d', m) && Owned(dst)
    ensures Deleted(d', m.c.account).syncHeights == dst.syncHeights
  {
    hide Without, Copied, KeysKept, FolderName, SyncHeightsKept, Owned;
    HeightsGiveBack(src, account, dst, d', m.c.account);
  }

  lemma HeightsGiveBack(src: Db, account: nat, dst: Db, d': Db, a': nat)
    requires SyncHeightsKept(src, account, dst, d', a') && Owned(dst) && a' !in dst.accounts
    ensures (map k | k in d'.syncHeights && k.0 != a' :: d'.syncHeights[k]) == dst.syncHeights
  {
    assert forall k | k in dst.syncHeights :: k.0 in dst.accounts;
    assert (map k | k in d'.syncHeights && k.0 != a' :: d'.syncHeights[k]).Keys == dst.syncHeights.Keys;
  }

  lemma UndoneAccounts(src: Db, account: nat, dst: Db, d': Db, m: Relocation)
    requires AccountRestored(src, account, dst, d', m)
    ensures Deleted(d', m.c.account).accounts == Shifted(dst.accounts)
  {
    hide Without, Copied, KeysKept, SyncHeightsKept, FolderName;
    assert (d'.accounts - {m.c.account}).Keys == dst.accounts.Keys;
  }

  // ---------------------------------------------------------------------
  // The two obstacles do occur
  // ---------------------------------------------------------------------

  function BareWallet(cols: AccountCols): Db {
    Db(map[1 := Account(cols, None, 1)], map[], map[], map[], map[], map[], map[], map[], map[],
       map[], map[], map[], map[], map[], map[], map[], map[])
  }

  function BareBackup(cols: AccountCols): IOAccount {
    IOAccount(DB_VERSION, cols, "", None, None, None, [], [], [], [], [], [], [])
  }

  /** One account, one transaction, one user memo on it. */
  function MemoWallet(cols: AccountCols, tx: TxCols, memo: string): Db {
    BareWallet(cols).(txs := map[1 := Tx(1, tx, None)], userMemos := map[(1, 1) := memo])
  }

  function MemoBackup(cols: AccountCols, tx: TxCols, memo: string): IOAccount {
    BareBackup(cols).(txs := [IOTx(1, tx, None, [], [], [])], userMemos := [IOUserMemo(1, memo)])
  }

  /** Without notes and outputs there is nothing below the transactions. */
  ghost predicate NoHistory(db: Db) {
    && db.notes == map[] && db.outputs == map[] && db.memos == map[] && db.spends == map[] && db.witnesses == map[]
    && db.tkeys == map[] && db.skeys == map[] && db.okeys == map[] && db.syncHeights == map[] && db.taddrs == map[]
  }

  lemma NoHistoryIntact(db: Db)
    requires NoHistory(db) && db.categories == map[]
    requires Unique(db.assets, AssetKey) && Unique(db.assets, AssetBase) && Unique(db.txs, TxKey)
    requires forall k | k in db.txs :: db.txs[k].account in db.accounts && db.txs[k].category == None
    requires forall k | k in db.accounts :: db.accounts[k].folder == None
    ensures Intact(db)
  {
  }

  lemma TxAlone(db: Db, io: IOTx)
    requires NoHistory(db) && io.id in db.txs && io.cols == db.txs[io.id].cols && io.category == db.txs[io.id].category
    requires io.notes == [] && io.outputs == [] && io.spends == []
    ensures TxExported(db, io)
  {
    assert NoteIds(io.notes) == [] && OutputIds(io.outputs) == [] && SpendIds(io.spends) == [];
  }

  lemma NoHistoryExported(db: Db, account: nat, io: IOAccount)
    requires NoHistory(db)
    requires io.taddrs == [] && io.syncHeights == [] && io.blocks == []
    ensures TaddrsExported(db, account, io.taddrs) && SyncHeightsExported(db, account, io.syncHeights)
            && BlocksExported(db, account, io.blocks)
  {
    assert TaddrIds(io.taddrs) == [] && SyncPools(io.syncHeights) == [] && BlockHeights(io.blocks) == [];
  }

  lemma MemoWalletExported(cols: AccountCols, tx: TxCols, memo: string)
    ensures Intact(MemoWallet(cols, tx, memo))
    ensures Exported(MemoWallet(cols, tx, memo), 1, MemoBackup(cols, tx, memo))
  {
    var db, io := MemoWallet(cols, tx, memo), MemoBackup(cols, tx, memo);
    hide Intact, TxsExported, TaddrsExported, SyncHeightsExported, BlocksExported, UserMemosExported;
    MemoWalletIntact(cols, tx, memo);
    MemoTxExported(cols, tx, memo);
    NoHistoryExported(db, 1, io);
    assert CategoryIds(io.categories) == [] && AssetIds(io.assets) == [];
    assert SharedExported(db, io);
  }

  lemma MemoWalletIntact(cols: AccountCols, tx: TxCols, memo: string)
    ensures Intact(MemoWallet(cols, tx, memo)) && NoHistory(MemoWallet(cols, tx, memo))
  {
    hide Intact;
    NoHistoryIntact(MemoWallet(cols, tx, memo));
  }

  lemma MemoTxExported(cols: AccountCols, tx: TxCols, memo: string)
    ensures TxsExported(MemoWallet(cols, tx, memo), 1, MemoBackup(cols, tx, memo).txs)
    ensures UserMemosExported(MemoWallet(cols, tx, memo), 1, MemoBackup(cols, tx, memo).userMemos)
  {
    var db, io := MemoWallet(cols, tx, memo), MemoBackup(cols, tx, memo);
    hide TxExported;
    TxAlone(db, io.txs[0]);
    assert TxIds(io.txs) == [1] && UserMemoTxs(io.userMemos) == [1];
  }

  /**
   Deleting an account leaves its user memos; its own backup can then not be
   restored, because the ids come back.
   */
  lemma DeletedMemoBlocksRestore(cols: AccountCols, tx: TxCols, memo: string, d': Db, c: Ctx, r: Rows)
    ensures var db, io := MemoWallet(cols, tx, memo), MemoBackup(cols, tx, memo);
            && Intact(db) && Exported(db, 1, io) && Intact(Deleted(db, 1))
            && !Imported(Deleted(db, 1), io, d', c, r)
  {
    var db, io := MemoWallet(cols, tx, memo), MemoBackup(cols, tx, memo);
    MemoWalletExported(cols, tx, memo);
    assert !CanRestore(Deleted(db, 1), io) by {
      StaleMemoStays(cols, tx, memo);
    }
    hide *;
    DeleteKeepsIntact(db, 1);
    RestoreSucceedsIff(db, 1, io, Deleted(db, 1));
  }

  /** The same wallet without the memo. */
  function PlainWallet(cols: AccountCols, tx: TxCols): Db {
    BareWallet(cols).(txs := map[1 := Tx(1, tx, None)])
  }

  function PlainBackup(cols: AccountCols, tx: TxCols): IOAccount {
    BareBackup(cols).(txs := [IOTx(1, tx, None, [], [], [])])
  }

  lemma PlainWalletExported(cols: AccountCols, tx: TxCols)
    ensures Intact(PlainWallet(cols, tx)) && Exported(PlainWallet(cols, tx), 1, PlainBackup(cols, tx))
  {
    var db, io := PlainWallet(cols, tx), PlainBackup(cols, tx);
    hide Intact, TxsExported, TaddrsExported, SyncHeightsExported, BlocksExported, UserMemosExported;
    PlainWalletIntact(cols, tx);
    PlainTxExported(cols, tx);
    NoHistoryExported(db, 1, io);
    assert CategoryIds(io.categories) == [] && AssetIds(io.assets) == [];
    assert SharedExported(db, io);
  }

  lemma PlainWalletIntact(cols: AccountCols, tx: TxCols)
    ensures Intact(PlainWallet(cols, tx)) && NoHistory(PlainWallet(cols, tx))
  {
    hide Intact;
    NoHistoryIntact(PlainWallet(cols, tx));
  }

  lemma PlainTxExported(cols: AccountCols, tx: TxCols)
    ensures TxsExported(PlainWallet(cols, tx), 1, PlainBackup(cols, tx).txs)
    ensures UserMemosExported(PlainWallet(cols, tx), 1, PlainBackup(cols, tx).userMemos)
  {
    var db, io := PlainWallet(cols, tx), PlainBackup(cols, tx);
    hide TxExported;
    TxAlone(db, io.txs[0]);
    assert TxIds(io.txs) == [1] && UserMemoTxs(io.userMemos) == [];
  }

  /**
   After the deletion of an account with a memo, a backup without one goes in, and its transaction
   takes over the dead account's text.
   */
  lemma ForeignMemoAppears(cols: AccountCols, tx: TxCols, memo: string, d': Db, c: Ctx, r: Rows)
    ensures var src, dst, io := PlainWallet(cols, tx), Deleted(MemoWallet(cols, tx, memo), 1), PlainBackup(cols, tx);
            && Intact(src) && Exported(src, 1, io) && Intact(dst) && CanRestore(dst, io) && !NoForeignMemo(dst, io)
            && (Imported(dst, io, d', c, r) ==>
                  && c.account == 1 && 1 in r.newTxs && r.newTxs[1] == 1 && (1, 1) in d'.userMemos
                  && d'.userMemos[(1, 1)] == memo
                  && !UserMemosIsomorphic(src, 1, d', RelocationOf(dst, io, c, r)))
  {
    var src, dst, io := PlainWallet(cols, tx), Deleted(MemoWallet(cols, tx, memo), 1), PlainBackup(cols, tx);
    ForeignMemoWaits(cols, tx, memo);
    PlainWalletExported(cols, tx);
    MemoWalletExported(cols, tx, memo);
    hide *;
    DeleteKeepsIntact(MemoWallet(cols, tx, memo), 1);
    if Imported(dst, io, d', c, r) {
      MemoTakenOver(src, io, dst, d', c, r);
    }
  }

  lemma MemoTakenOver(src: Db, io: IOAccount, dst: Db, d': Db, c: Ctx, r: Rows)
    requires Intact(src) && Exported(src, 1, io) && Intact(dst) && Imported(dst, io, d', c, r)
             && !NoForeignMemo(dst, io)
    requires NextId(dst.accounts) == 1 && NextId(dst.txs) == 1 && TxIds(io.txs) == [1] && (1, 1) in dst.userMemos
    ensures c.account == 1 && 1 in r.newTxs && r.newTxs[1] == 1
    ensures (1, 1) in d'.userMemos && d'.userMemos[(1, 1)] == dst.userMemos[(1, 1)]
    ensures !UserMemosIsomorphic(src, 1, d', RelocationOf(dst, io, c, r))
  {
    hide *;
    RestoredInOrder(src, 1, io, dst, d', c, r);
    FirstInOrder(r.newTxs, 1, 1);
    UserMemosIsomorphicIff(src, 1, io, dst, d', c, r);
    RoundTrip(src, 1, io, dst, d', c, r);
    UserMemosOfRestored(src, 1, dst, d', RelocationOf(dst, io, c, r));
    OldMemosStay(src, 1, dst, d', RelocationOf(dst, io, c, r));
  }

  lemma FirstInOrder(m: map<nat, nat>, id: nat, first: nat)
    requires InOrder(m, [id], first)
    ensures id in m && m[id] == first
  {
    assert [id][0] == id;
  }

  lemma ForeignMemoWaits(cols: AccountCols, tx: TxCols, memo: string)
    ensures var dst, io := Deleted(MemoWallet(cols, tx, memo), 1), PlainBackup(cols, tx);
            && CanRestore(dst, io) && !NoForeignMemo(dst, io) && NextId(dst.accounts) == 1 && NextId(dst.txs) == 1
            && TxIds(io.txs) == [1] && (1, 1) in dst.userMemos && dst.userMemos[(1, 1)] == memo
  {
    var dst, io := Deleted(MemoWallet(cols, tx, memo), 1), PlainBackup(cols, tx);
    assert dst.accounts == map[] && dst.txs == map[] && io.userMemos == [] && io.assets == [];
    assert NextId(dst.accounts) == 1 && NextId(dst.txs) == 1;
    assert UserMemoTxs(io.userMemos) == [] && io.txs[0].id !in UserMemoTxs(io.userMemos);
    assert (1, 1 + 0) in dst.userMemos;
  }

  lemma StaleMemoStays(cols: AccountCols, tx: TxCols, memo: string)
    ensures !NoStaleMemo(Deleted(MemoWallet(cols, tx, memo), 1), MemoBackup(cols, tx, memo))
  {
    var d, io := Deleted(MemoWallet(cols, tx, memo), 1), MemoBackup(cols, tx, memo);
    assert d.accounts == map[] && d.txs == map[];
    assert io.userMemos[0].idTx == io.txs[0].id;
    assert (1, 1) in d.userMemos;
  }

  /** A stored asset with the base of another asset blocks the restore of an account whose backup lists that one. */
  lemma AssetBaseBlocksRestore(cols: AccountCols, a: Asset, b: Asset, d': Db, c: Ctx, r: Rows)
    requires AssetKey(a) != AssetKey(b) && a.base == b.base
    ensures var src, dst := BareWallet(cols).(assets := map[1 := a]), BareWallet(cols).(assets := map[1 := b]);
            var io := BareBackup(cols).(assets := [IOAsset(1, a)]);
            && Intact(src) && Exported(src, 1, io) && Intact(dst)
            && !Imported(dst, io, d', c, r)
  {
    var src, dst := BareWallet(cols).(assets := map[1 := a]), BareWallet(cols).(assets := map[1 := b]);
    var io := BareBackup(cols).(assets := [IOAsset(1, a)]);
    AssetWalletIntact(cols, a);
    AssetWalletIntact(cols, b);
    AssetWalletExported(cols, a);
    BaseTaken(cols, a, b);
    hide *;
    RestoreSucceedsIff(src, 1, io, dst);
  }

  lemma AssetWalletIntact(cols: AccountCols, a: Asset)
    ensures Intact(BareWallet(cols).(assets := map[1 := a]))
  {
    hide Intact;
    NoHistoryIntact(BareWallet(cols).(assets := map[1 := a]));
  }

  lemma BaseTaken(cols: AccountCols, a: Asset, b: Asset)
    requires AssetKey(a) != AssetKey(b) && a.base == b.base
    ensures !CanRestore(BareWallet(cols).(assets := map[1 := b]), BareBackup(cols).(assets := [IOAsset(1, a)]))
  {
    hide NoStaleMemo, NextId;
    var t: Table<Asset> := map[1 := b];
    assert AssetBase(t[1]) == AssetBase(a);
    assert !AssetFits(t, a);
    assert BareBackup(cols).(assets := [IOAsset(1, a)]).assets[0].asset == a;
  }

  lemma AssetWalletExported(cols: AccountCols, a: Asset)
    ensures Exported(BareWallet(cols).(assets := map[1 := a]), 1, BareBackup(cols).(assets := [IOAsset(1, a)]))
  {
    var src, io := BareWallet(cols).(assets := map[1 := a]), BareBackup(cols).(assets := [IOAsset(1, a)]);
    hide TaddrsExported, SyncHeightsExported, BlocksExported;
    NoHistoryExported(src, 1, io);
    assert TxIds(io.txs) == [] && UserMemoTxs(io.userMemos) == [];
    assert CategoryIds(io.categories) == [] && AssetIds(io.assets) == [1];
    assert SharedExported(src, io) && TxsExported(src, 1, io.txs) && UserMemosExported(src, 1, io.userMemos);
  }
}
