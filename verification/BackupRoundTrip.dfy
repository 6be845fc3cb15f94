/**
 A backup of an account of any intact database, restored into any intact
 database: when it succeeds, and what it leaves there.

 Proofs about whole imports hide all definitions; a lemma named ...Parts or ...Is
 unfolds the one definition it is named after.
 */
module BackupRoundTrip {
  import opened Wrappers
  import opened Tables
  import opened Schema
  import opened Backup
  import opened BackupExport
  import opened BackupFold
  import opened BackupRecord
  import opened BackupRelocation

  function RelocationOf(dst: Db, io: IOAccount, c: Ctx, r: Rows): Relocation {
    Relocation(c, r.newTxs, r.newNotes, IdMap(OutputIds(FlatOutputs(io.txs)), NextId(dst.outputs)))
  }

  // ---------------------------------------------------------------------
  // The restored account
  // ---------------------------------------------------------------------

  /** Spends are keyed by note, so they move with the notes. */
  function SpentMap(src: Db, account: nat, m: Relocation): map<nat, nat> {
    map k | k in src.spends && src.spends[k].account == account && k in m.notes :: m.notes[k]
  }

  ghost predicate MemosCopied(src: Db, account: nat, dst: Db, d': Db, m: Relocation) {
    exists ids :: Copied(src.memos, MemoOf(account), dst.memos, d'.memos, RestoredMemo(m), ids)
  }

  ghost predicate WitnessesCopied(src: Db, account: nat, dst: Db, d': Db, m: Relocation) {
    exists ids :: Copied(src.witnesses, WitnessOf(account), dst.witnesses, d'.witnesses, RestoredWitness(m), ids)
  }

  /** Row for row, the history of `account` of `src` is what `d'` has beyond `dst`. */
  ghost predicate HistoryRestored(src: Db, account: nat, dst: Db, d': Db, m: Relocation) {
    && Copied(src.txs, TxOf(account), dst.txs, d'.txs, RestoredTx(m), m.txs)
    && Copied(src.notes, NoteOf(account), dst.notes, d'.notes, RestoredNote(m), m.notes)
    && Copied(src.outputs, OutputOf(account), dst.outputs, d'.outputs, RestoredOutput(m), m.outputs)
    && Copied(src.spends, SpendOf(account), dst.spends, d'.spends, RestoredSpend(m), SpentMap(src, account, m))
    && MemosCopied(src, account, dst, d', m) && WitnessesCopied(src, account, dst, d', m)
  }

  /**
   Rows shared by all accounts are found under their key, and one whose key `dst` did not hold
   arrives as it was; stored rows stay, and nothing else is added.
   */
  ghost predicate Merged<T(!new), K(!new)>(src: Table<T>, dst: Table<T>, t': Table<T>, key: T -> K, m: map<nat, nat>) {
    && Extends(dst, t') && (forall k | k in t' && k !in dst :: exists i :: i in src && src[i] == t'[k])
    && (forall k | k in src :: k in m && m[k] in t' && key(t'[m[k]]) == key(src[k]))
    && (forall k | k in src && k in m && m[k] in t' ::
          if HasKey(dst, key, key(src[k])) then m[k] in dst else t'[m[k]] == src[k])
  }

  ghost predicate HasKey<T, K>(t: Table<T>, key: T -> K, x: K) {
    exists k :: k in t && key(t[k]) == x
  }

  ghost predicate SharedRestored(src: Db, account: nat, dst: Db, d': Db, m: Relocation) {
    && Merged(src.categories, dst.categories, d'.categories, CategoryKey, m.c.categories)
    && Merged(src.assets, dst.assets, d'.assets, AssetKey, m.c.assets)
  }

  ghost predicate UserMemosKept(src: Db, account: nat, dst: Db, d': Db, m: Relocation) {
    && (forall k | k in dst.userMemos :: k in d'.userMemos && d'.userMemos[k] == dst.userMemos[k])
    && (forall k | k in src.userMemos && k.0 == account && k.1 in m.txs ::
          (m.c.account, m.txs[k.1]) in d'.userMemos && d'.userMemos[(m.c.account, m.txs[k.1])] == src.userMemos[k])
    && (forall k | k in d'.userMemos && k !in dst.userMemos ::
          k.0 == m.c.account && exists tx :: tx in m.txs && m.txs[tx] == k.1 && (account, tx) in src.userMemos)
  }

  ghost predicate SyncHeightsKept(src: Db, account: nat, dst: Db, d': Db, a': nat) {
    && (forall k | k in dst.syncHeights :: k in d'.syncHeights && d'.syncHeights[k] == dst.syncHeights[k])
    && (forall pool :: (a', pool) in d'.syncHeights <==> (account, pool) in src.syncHeights)
    && (forall pool | (account, pool) in src.syncHeights ::
         d'.syncHeights[(a', pool)] == src.syncHeights[(account, pool)])
    && (forall k | k in d'.syncHeights :: k in dst.syncHeights || k.0 == a')
  }

  ghost predicate KeysKept(s: Table<Keys>, account: nat, d: Table<Keys>, d': Table<Keys>, a': nat) {
    d' == if account in s then d[a' := s[account]] else d
  }

  /** The account row is new and first in order; every other account moves down by one. */
  ghost predicate AccountRestored(src: Db, account: nat, dst: Db, d': Db, m: Relocation) {
    && m.c.account !in dst.accounts && account in src.accounts
    && d'.accounts.Keys == dst.accounts.Keys + {m.c.account}
    && (forall k | k in dst.accounts :: d'.accounts[k] == dst.accounts[k].(position := dst.accounts[k].position + 1))
    && d'.accounts[m.c.account].cols == src.accounts[account].cols && d'.accounts[m.c.account].position == 1
    && FolderName(d', d'.accounts[m.c.account].folder) == FolderName(src, src.accounts[account].folder)
    && Extends(dst.folders, d'.folders) && (forall f | d'.accounts[m.c.account].folder == Some(f) :: f in d'.folders)
    && KeysKept(src.tkeys, account, dst.tkeys, d'.tkeys, m.c.account)
    && KeysKept(src.skeys, account, dst.skeys, d'.skeys, m.c.account)
    && KeysKept(src.okeys, account, dst.okeys, d'.okeys, m.c.account)
    && SyncHeightsKept(src, account, dst, d', m.c.account)
    && Copied(src.taddrs, TaddrOf(account), dst.taddrs, d'.taddrs, RestoredTaddr(m), m.c.taddrs)
  }

  /** Stored headers stay; the checkpoints of the account add theirs where none was stored, and nothing else does. */
  ghost predicate HeadersKept(src: Db, account: nat, dst: Db, d': Db) {
    && Extends(dst.headers, d'.headers)
    && (forall w | w in src.witnesses && src.witnesses[w].account == account :: src.witnesses[w].height in d'.headers)
    && (forall h | h in d'.headers && h !in dst.headers ::
          HasWitnessAt(src, account, h) && h in src.headers && d'.headers[h] == src.headers[h])
  }

  ghost predicate Restored(src: Db, account: nat, dst: Db, d': Db, m: Relocation) {
    && AccountRestored(src, account, dst, d', m) && SharedRestored(src, account, dst, d', m)
    && HistoryRestored(src, account, dst, d', m) && UserMemosKept(src, account, dst, d', m)
    && HeadersKept(src, account, dst, d')
  }

  // ---------------------------------------------------------------------
  // The first pass
  // ---------------------------------------------------------------------

  lemma BeforeIsFresh(dst: Db)
    requires Intact(dst)
    ensures FreshRows(NextId(dst.accounts), Before(dst))
  {
    hide Constraints;
    forall k | k in dst.notes
      ensures dst.notes[k].account in dst.accounts
    {
      assert NoteIntact(dst, dst.notes[k]);
    }
    forall k | k in dst.memos
      ensures dst.memos[k].tx in dst.txs
    {
      assert MemoIntact(dst, dst.memos[k]);
      match (dst.memos[k].note, dst.memos[k].output)
      case (Some(n), None) => assert NoteIntact(dst, dst.notes[n]);
      case (None, Some(o)) => assert OutputIntact(dst, dst.outputs[o]);
    }
    forall k | k in dst.outputs
      ensures dst.outputs[k].tx in dst.txs
    {
      assert OutputIntact(dst, dst.outputs[k]);
    }
  }

  /** The transaction pass always succeeds on an exported record. */
  lemma FirstPass(src: Db, account: nat, io: IOAccount, dst: Db, c: Ctx)
    requires Intact(src) && Exported(src, account, io) && Intact(dst) && c.account == NextId(dst.accounts)
    ensures AddTxs(c, Before(dst), io.txs) == Some(TxsDone(c, Before(dst), io.txs))
  {
    TxsAreOk(src, account, io);
    BeforeIsFresh(dst);
    hide *;
    TxsAdded(c, Before(dst), io.txs);
  }

  /** What the first pass leaves behind, and its two id maps. */
  lemma FirstPassRows(src: Db, account: nat, io: IOAccount, dst: Db, c: Ctx, r: Rows)
    requires Intact(src) && Exported(src, account, io) && r == TxsDone(c, Before(dst), io.txs)
    ensures r.newTxs == IdMap(TxIds(io.txs), NextId(dst.txs))
            && r.newNotes == IdMap(NoteIds(FlatNotes(io.txs)), NextId(dst.notes))
    ensures NoDup(TxIds(io.txs)) && NoDup(NoteIds(FlatNotes(io.txs))) && NoDup(OutputIds(FlatOutputs(io.txs)))
    ensures var m := RelocationOf(dst, io, c, r);
            && InOrder(m.txs, TxIds(io.txs), NextId(dst.txs))
            && InOrder(m.notes, NoteIds(FlatNotes(io.txs)), NextId(dst.notes))
            && InOrder(m.outputs, OutputIds(FlatOutputs(io.txs)), NextId(dst.outputs))
  {
    TxsDoneParts(c, Before(dst), io.txs);
    NotesOfAccount(src, account, io);
    OutputsOfAccount(src, account, io);
    TxIdsOfAccount(src, account, io);
    hide Exported, Intact, TxsDone, NoteExported, OutputExported, TxExported, InOrder, IdMap, FlatNotes, FlatOutputs,
        NextId, NoteIds, OutputIds, TxIds;
    EmptyPlus(IdMap(TxIds(io.txs), NextId(dst.txs)));
    EmptyPlus(IdMap(NoteIds(FlatNotes(io.txs)), NextId(dst.notes)));
    IdMapInOrder(TxIds(io.txs), NextId(dst.txs));
    IdMapInOrder(NoteIds(FlatNotes(io.txs)), NextId(dst.notes));
    IdMapInOrder(OutputIds(FlatOutputs(io.txs)), NextId(dst.outputs));
  }

  lemma EmptyPlus(m: map<nat, nat>)
    ensures map[] + m == m
  {
  }

  lemma TxsCopied(src: Db, account: nat, io: IOAccount, dst: Db, m: Relocation)
    requires Exported(src, account, io) && m.txs == IdMap(TxIds(io.txs), NextId(dst.txs))
    ensures Copied(src.txs, TxOf(account), dst.txs, Append(dst.txs, TxRows(m.c, io.txs)), RestoredTx(m), m.txs)
  {
    hide SharedExported, TaddrsExported, SyncHeightsExported, UserMemosExported, BlocksExported, NotesExported,
        OutputsExported, SpendsExported;
    hide Append, NextId, IdMap, Copied;
    assert RowsAre(src.txs, TxIds(io.txs), TxRows(m.c, io.txs), RestoredTx(m));
    RowsCopied(src.txs, TxOf(account), dst.txs, RestoredTx(m), TxIds(io.txs), TxRows(m.c, io.txs));
  }

  lemma NotesCopied(src: Db, account: nat, io: IOAccount, dst: Db, m: Relocation)
    requires Intact(src) && Exported(src, account, io) && InOrder(m.txs, TxIds(io.txs), NextId(dst.txs))
    requires m.notes == IdMap(NoteIds(FlatNotes(io.txs)), NextId(dst.notes))
    ensures Copied(src.notes, NoteOf(account), dst.notes, Append(dst.notes, NoteRows(m.c, NextId(dst.txs), io.txs)),
                RestoredNote(m), m.notes)
  {
    assert forall k | k in src.notes :: NoteIntact(src, src.notes[k]);
    TxIdsOfAccount(src, account, io);
    NotesOfAccount(src, account, io);
    hide *;
    assert forall k | k in src.notes :: IsI64(src.notes[k].cols.value) by { NoteValues(src); }
    AllNoteRowsAre(src, m, NextId(dst.txs), io.txs);
    RowsCopied(src.notes, NoteOf(account), dst.notes, RestoredNote(m), NoteIds(FlatNotes(io.txs)),
        NoteRows(m.c, NextId(dst.txs), io.txs));
  }

  lemma NoteValues(src: Db)
    requires forall k | k in src.notes :: NoteIntact(src, src.notes[k])
    ensures forall k | k in src.notes :: IsI64(src.notes[k].cols.value)
  {
  }

  lemma OutputValues(src: Db)
    requires forall k | k in src.outputs :: OutputIntact(src, src.outputs[k])
    ensures forall k | k in src.outputs :: IsI64(src.outputs[k].cols.value)
  {
  }

  lemma OutputsCopied(src: Db, account: nat, io: IOAccount, dst: Db, m: Relocation)
    requires Intact(src) && Exported(src, account, io) && InOrder(m.txs, TxIds(io.txs), NextId(dst.txs))
    requires m.outputs == IdMap(OutputIds(FlatOutputs(io.txs)), NextId(dst.outputs))
    ensures Copied(src.outputs, OutputOf(account), dst.outputs,
                Append(dst.outputs, OutputRows(m.c, NextId(dst.txs), io.txs)), RestoredOutput(m), m.outputs)
  {
    assert forall k | k in src.outputs :: OutputIntact(src, src.outputs[k]);
    TxIdsOfAccount(src, account, io);
    OutputsOfAccount(src, account, io);
    hide *;
    assert forall k | k in src.outputs :: IsI64(src.outputs[k].cols.value) by { OutputValues(src); }
    AllOutputRowsAre(src, m, NextId(dst.txs), io.txs);
    RowsCopied(src.outputs, OutputOf(account), dst.outputs, RestoredOutput(m), OutputIds(FlatOutputs(io.txs)),
        OutputRows(m.c, NextId(dst.txs), io.txs));
  }

  lemma MemosAreCopied(src: Db, account: nat, io: IOAccount, dst: Db, m: Relocation) returns (moved: map<nat, nat>)
    requires Intact(src) && Exported(src, account, io) && InOrder(m.txs, TxIds(io.txs), NextId(dst.txs))
    requires InOrder(m.notes, NoteIds(FlatNotes(io.txs)), NextId(dst.notes))
             && InOrder(m.outputs, OutputIds(FlatOutputs(io.txs)), NextId(dst.outputs))
    ensures Copied(src.memos, MemoOf(account), dst.memos,
                   Append(dst.memos, MemoRows(m.c, NextId(dst.txs), NextId(dst.notes), NextId(dst.outputs), io.txs)),
                       RestoredMemo(m), moved)
  {
    TxIdsOfAccount(src, account, io);
    MemoAccounts(src);
    hide *;
    var ids := AllMemosListed(src, m, NextId(dst.txs), NextId(dst.notes), NextId(dst.outputs), io.txs);
    assert forall k | k in src.memos :: MemoOfTxs(TxIds(io.txs))(src.memos[k]) == MemoOf(account)(src.memos[k]) by {
      MemosByAccount(src, account, TxIds(io.txs));
    }
    ListsSame(ids, src.memos, MemoOfTxs(TxIds(io.txs)), MemoOf(account));
    moved := IdMap(ids, NextId(dst.memos));
    RowsCopied(src.memos, MemoOf(account), dst.memos, RestoredMemo(m), ids,
        MemoRows(m.c, NextId(dst.txs), NextId(dst.notes), NextId(dst.outputs), io.txs));
  }

  lemma MemosByAccount(src: Db, account: nat, txs: seq<nat>)
    requires forall x :: x in txs <==> x in src.txs && src.txs[x].account == account
    requires forall k | k in src.memos ::
               src.memos[k].tx in src.txs && src.txs[src.memos[k].tx].account == src.memos[k].account
    ensures forall k | k in src.memos :: MemoOfTxs(txs)(src.memos[k]) == MemoOf(account)(src.memos[k])
  {
  }

  lemma MemoAccounts(src: Db)
    requires Intact(src)
    ensures forall k | k in src.memos ::
              src.memos[k].tx in src.txs && src.txs[src.memos[k].tx].account == src.memos[k].account
  {
    forall k | k in src.memos
      ensures src.memos[k].tx in src.txs && src.txs[src.memos[k].tx].account == src.memos[k].account
    {
      assert MemoIntact(src, src.memos[k]);
      match (src.memos[k].note, src.memos[k].output)
      case (Some(n), None) => assert NoteIntact(src, src.notes[n]);
      case (None, Some(o)) => assert OutputIntact(src, src.outputs[o]);
    }
  }

  // ---------------------------------------------------------------------
  // The second pass: every look-up succeeds
  // ---------------------------------------------------------------------

  /** The maps the first pass leaves behind for the second. */
  ghost predicate MapsReady(src: Db, account: nat, dst: Db, m: Relocation) {
    && Injective(m.txs) && Injective(m.notes)
    && (forall k :: k in m.txs <==> k in src.txs && src.txs[k].account == account)
    && (forall k :: k in m.notes <==> k in src.notes && src.notes[k].account == account)
    && (forall k | k in m.notes :: m.notes[k] !in dst.notes)
    && (forall k | k in m.txs :: m.txs[k] !in dst.txs)
  }

  lemma CopiedReady<T(!new)>(s: Table<T>, p: T -> bool, d: Table<T>, d': Table<T>, tr: T -> T, m: map<nat, nat>)
    requires Copied(s, p, d, d', tr, m)
    ensures Injective(m)
    ensures forall k :: k in m <==> k in s && p(s[k])
    ensures forall k | k in m :: m[k] !in d
  {
  }

  lemma MapsAreReady(src: Db, account: nat, dst: Db, m: Relocation, txs: Table<Tx>, notes: Table<Note>)
    requires Copied(src.txs, TxOf(account), dst.txs, txs, RestoredTx(m), m.txs)
    requires Copied(src.notes, NoteOf(account), dst.notes, notes, RestoredNote(m), m.notes)
    ensures MapsReady(src, account, dst, m)
  {
    hide Copied, Injective;
    CopiedReady(src.txs, TxOf(account), dst.txs, txs, RestoredTx(m), m.txs);
    CopiedReady(src.notes, NoteOf(account), dst.notes, notes, RestoredNote(m), m.notes);
  }

  lemma SpendsAreResolved(src: Db, account: nat, io: IOAccount, dst: Db, m: Relocation)
    requires Intact(src) && Exported(src, account, io) && Intact(dst) && MapsReady(src, account, dst, m)
    ensures SpendsResolve(m.txs, m.notes, dst.spends, FlatSpends(io.txs))
  {
    SpendsOfAccount(src, account, io);
    SpendPlaces(src);
    SpendPlaces(dst);
    hide *;
    ListedResolve(src, account, FlatSpends(io.txs), dst, m);
  }

  ghost predicate InOwnTx(d: Db, k: nat) {
    && k in d.spends && k in d.notes && d.notes[k].account == d.spends[k].account
    && d.spends[k].tx in d.txs && d.txs[d.spends[k].tx].account == d.spends[k].account && IsI64(d.spends[k].value)
  }

  lemma OneListed(src: Db, account: nat, flat: seq<(nat, IOSpend)>, i: nat)
    requires Lists(SpentIds(flat), src.spends, SpendOf(account)) && i < |flat| && FlatSpendExported(src, flat[i])
    ensures flat[i].1.idNote in src.spends && src.spends[flat[i].1.idNote].account == account
    ensures src.spends[flat[i].1.idNote].tx == flat[i].0
    ensures forall j | 0 <= j < i :: flat[j].1.idNote != flat[i].1.idNote
  {
    var ids := SpentIds(flat);
    assert SpendOf(account)(src.spends[ids[i]]);
    assert forall j | 0 <= j < i :: ids[j] == flat[j].1.idNote;
  }

  lemma ListedResolve(src: Db, account: nat, flat: seq<(nat, IOSpend)>, dst: Db, m: Relocation)
    requires Lists(SpentIds(flat), src.spends, SpendOf(account)) && forall k | 0 <= k < |flat| ::
               FlatSpendExported(src, flat[k])
    requires (forall k | k in src.spends :: InOwnTx(src, k)) && (forall k | k in dst.spends :: InOwnTx(dst, k))
    requires MapsReady(src, account, dst, m)
    ensures SpendsResolve(m.txs, m.notes, dst.spends, flat)
  {
    hide Lists, FlatSpendExported, Injective;
    forall i | 0 <= i < |flat|
      ensures flat[i].0 in m.txs && flat[i].1.idNote in m.notes && m.notes[flat[i].1.idNote] !in dst.spends
    {
      OneListed(src, account, flat, i);
      assert InOwnTx(src, flat[i].1.idNote);
    }
    forall i, j | 0 <= i < j < |flat|
      ensures flat[i].1.idNote != flat[j].1.idNote
    {
      OneListed(src, account, flat, j);
    }
  }

  lemma SpendsIntact(db: Db)
    requires Intact(db)
    ensures forall k | k in db.spends :: SpendIntact(db, k, db.spends[k])
  {
  }

  lemma SpendPlaces(d: Db)
    requires Intact(d)
    ensures forall k | k in d.spends :: InOwnTx(d, k)
  {
    forall k | k in d.spends
      ensures InOwnTx(d, k)
    {
      assert SpendIntact(d, k, d.spends[k]);
    }
  }

  lemma SpendRowIs(src: Db, m: Relocation, f: (nat, IOSpend))
    requires FlatSpendExported(src, f) && f.0 in m.txs && IsI64(src.spends[f.1.idNote].value)
    ensures SpendRow(m.c, m.txs[f.0], f.1) == RestoredSpend(m)(src.spends[f.1.idNote])
  {
    CastRoundTrip(src.spends[f.1.idNote].value);
  }

  lemma SpendsAreCopied(src: Db, account: nat, io: IOAccount, dst: Db, m: Relocation, spends: Table<Spend>)
    requires Intact(src) && Exported(src, account, io) && MapsReady(src, account, dst, m) && Intact(dst)
    requires SpendsRestored(m.c, m.txs, m.notes, dst.spends, FlatSpends(io.txs), spends)
    ensures Copied(src.spends, SpendOf(account), dst.spends, spends, RestoredSpend(m), SpentMap(src, account, m))
  {
    SpendsOfAccount(src, account, io);
    SpendPlaces(src);
    SpendPlaces(dst);
    hide *;
    ListedCopied(src, account, FlatSpends(io.txs), dst, m, spends);
  }

  lemma ListedCopied(src: Db, account: nat, flat: seq<(nat, IOSpend)>, dst: Db, m: Relocation, spends: Table<Spend>)
    requires Lists(SpentIds(flat), src.spends, SpendOf(account)) && forall k | 0 <= k < |flat| ::
               FlatSpendExported(src, flat[k])
    requires (forall k | k in src.spends :: InOwnTx(src, k)) && (forall k | k in dst.spends :: InOwnTx(dst, k))
    requires MapsReady(src, account, dst, m) && SpendsRestored(m.c, m.txs, m.notes, dst.spends, flat, spends)
    ensures Copied(src.spends, SpendOf(account), dst.spends, spends, RestoredSpend(m), SpentMap(src, account, m))
  {
    hide *;
    var sm := SpentMap(src, account, m);
    SpentMapIs(src, account, dst, m);
    forall k | k in sm
      ensures sm[k] in spends && sm[k] !in dst.spends && spends[sm[k]] == RestoredSpend(m)(src.spends[k])
    {
      SpendMoved(src, account, flat, dst, m, spends, k);
    }
    forall k | k in spends && k !in dst.spends
      ensures exists i :: i in sm && sm[i] == k
    {
      var i := SpendCameFrom(src, account, flat, dst, m, spends, k);
      assert sm[i] == k;
    }
    SpendsKept(m.c, m.txs, m.notes, dst.spends, flat, spends);
    CopiedFrom(src.spends, SpendOf(account), dst.spends, spends, RestoredSpend(m), sm);
  }

  lemma CopiedFrom<T(!new)>(s: Table<T>, p: T -> bool, d: Table<T>, d': Table<T>, tr: T -> T, m: map<nat, nat>)
    requires forall k :: k in m <==> k in s && p(s[k])
    requires forall i, j | i in m && j in m && m[i] == m[j] :: i == j
    requires forall k | k in m :: m[k] in d' && m[k] !in d && d'[m[k]] == tr(s[k])
    requires forall k | k in d' && k !in d :: exists i :: i in m && m[i] == k
    requires forall k | k in d :: k in d' && d'[k] == d[k]
    ensures Copied(s, p, d, d', tr, m)
  {
  }

  lemma SpendsKept(c: Ctx, newTxs: map<nat, nat>, newNotes: map<nat, nat>, t: Table<Spend>,
          flat: seq<(nat, IOSpend)>, t': Table<Spend>)
    requires SpendsRestored(c, newTxs, newNotes, t, flat, t')
    ensures forall k | k in t :: k in t' && t'[k] == t[k]
  {
  }

  lemma SpentMapIs(src: Db, account: nat, dst: Db, m: Relocation)
    requires (forall k | k in src.spends :: InOwnTx(src, k)) && MapsReady(src, account, dst, m)
    ensures var sm := SpentMap(src, account, m);
            && (forall k :: k in sm <==> k in src.spends && SpendOf(account)(src.spends[k]))
            && (forall k | k in sm :: k in m.notes && sm[k] == m.notes[k])
            && (forall i, j | i in sm && j in sm && sm[i] == sm[j] :: i == j)
  {
    forall k | k in src.spends && src.spends[k].account == account
      ensures k in m.notes
    {
      assert InOwnTx(src, k);
    }
  }

  lemma SpendMoved(src: Db, account: nat, flat: seq<(nat, IOSpend)>, dst: Db, m: Relocation, spends: Table<Spend>,
          k: nat)
    requires Lists(SpentIds(flat), src.spends, SpendOf(account)) && forall i | 0 <= i < |flat| ::
               FlatSpendExported(src, flat[i])
    requires (forall s | s in src.spends :: InOwnTx(src, s)) && (forall s | s in dst.spends :: InOwnTx(dst, s))
    requires MapsReady(src, account, dst, m) && SpendsRestored(m.c, m.txs, m.notes, dst.spends, flat, spends)
    requires k in src.spends && SpendOf(account)(src.spends[k])
    ensures k in m.notes && m.notes[k] in spends && m.notes[k] !in dst.spends
            && spends[m.notes[k]] == RestoredSpend(m)(src.spends[k])
  {
    hide FlatSpendExported, RestoredSpend, SpendRow, InOwnTx, MapsReady;
    var i := PositionOf(SpentIds(flat), k);
    OneListed(src, account, flat, i);
    assert InOwnTx(src, k);
    OwnTxParts(src, dst, account, m, k);
    SpendRowIs(src, m, flat[i]);
  }

  lemma SpendCameFrom(src: Db, account: nat, flat: seq<(nat, IOSpend)>, dst: Db, m: Relocation, spends: Table<Spend>,
          k: nat) returns (note: nat)
    requires Lists(SpentIds(flat), src.spends, SpendOf(account)) && forall i | 0 <= i < |flat| ::
               FlatSpendExported(src, flat[i])
    requires SpendsRestored(m.c, m.txs, m.notes, dst.spends, flat, spends) && k in spends && k !in dst.spends
    ensures note in SpentMap(src, account, m) && SpentMap(src, account, m)[note] == k
  {
    hide FlatSpendExported, RestoredSpend, SpendRow;
    var i :| 0 <= i < |flat| && flat[i].1.idNote in m.notes && k == m.notes[flat[i].1.idNote];
    OneListed(src, account, flat, i);
    note := flat[i].1.idNote;
  }

  lemma OwnTxParts(src: Db, dst: Db, account: nat, m: Relocation, k: nat)
    requires MapsReady(src, account, dst, m) && InOwnTx(src, k) && src.spends[k].account == account
    requires forall s | s in dst.spends :: InOwnTx(dst, s)
    ensures k in m.notes && m.notes[k] !in dst.spends && src.spends[k].tx in m.txs && IsI64(src.spends[k].value)
  {
  }

  lemma WitnessesAreResolved(src: Db, account: nat, io: IOAccount, dst: Db, m: Relocation, ids: seq<nat>)
    requires Intact(src) && Intact(dst) && MapsReady(src, account, dst, m)
    requires Lists(ids, src.witnesses, WitnessOf(account)) && WitnessesOf(src, ids, FlatWitnesses(io.blocks))
    ensures WitnessesResolve(m.notes, dst.witnesses, FlatWitnesses(io.blocks))
  {
    var ws := FlatWitnesses(io.blocks);
    assert Unique(src.witnesses, WitnessKey) && NoDup(ids);
    WitnessesDistinct(src, ids, ws);
    WitnessPlaces(src);
    WitnessPlaces(dst);
    hide *;
    WitnessNotesMoved(src, account, dst, m, ids, ws);
    NewNotesUnwitnessed(src, account, dst, m);
    WitnessesResolveIs(m.notes, dst.witnesses, ws);
  }

  lemma WitnessesResolveIs(newNotes: map<nat, nat>, t: Table<Witness>, ws: seq<IOWitness>)
    requires forall i | 0 <= i < |ws| :: ws[i].note in newNotes
    requires forall i, j | 0 <= i < j < |ws| :: (ws[i].note, ws[i].height) != (ws[j].note, ws[j].height)
    requires forall k, n | k in t && n in newNotes :: t[k].note != newNotes[n]
    ensures WitnessesResolve(newNotes, t, ws)
  {
  }

  lemma WitnessNotesMoved(src: Db, account: nat, dst: Db, m: Relocation, ids: seq<nat>, ws: seq<IOWitness>)
    requires MapsReady(src, account, dst, m) && Lists(ids, src.witnesses, WitnessOf(account))
             && WitnessesOf(src, ids, ws)
    requires forall k | k in src.witnesses ::
               src.witnesses[k].note in src.notes
               && src.notes[src.witnesses[k].note].account == src.witnesses[k].account
    ensures forall i | 0 <= i < |ws| :: ws[i].note in m.notes
  {
    hide Injective;
    forall i | 0 <= i < |ws|
      ensures ws[i].note in m.notes
    {
      assert WitnessExported(src, ids[i], ws[i]) && WitnessOf(account)(src.witnesses[ids[i]]);
    }
  }

  lemma NewNotesUnwitnessed(src: Db, account: nat, dst: Db, m: Relocation)
    requires MapsReady(src, account, dst, m) && forall k | k in dst.witnesses :: dst.witnesses[k].note in dst.notes
    ensures forall k, n | k in dst.witnesses && n in m.notes :: dst.witnesses[k].note != m.notes[n]
  {
    hide Injective;
  }

  lemma WitnessPlaces(src: Db)
    requires Intact(src)
    ensures forall k | k in src.witnesses :: src.witnesses[k].note in src.notes
                                             && src.notes[src.witnesses[k].note].account == src.witnesses[k].account
                                             && src.witnesses[k].height in src.headers
  {
    forall k | k in src.witnesses
      ensures src.witnesses[k].note in src.notes && src.notes[src.witnesses[k].note].account == src.witnesses[k].account
      ensures src.witnesses[k].height in src.headers
    {
      assert WitnessIntact(src, src.witnesses[k]);
    }
  }

  lemma WitnessRowsAre(src: Db, m: Relocation, ids: seq<nat>, ws: seq<IOWitness>)
    requires WitnessesOf(src, ids, ws)
    ensures RowsAre(src.witnesses, ids, WitnessRows(m.c, m.notes, ws), RestoredWitness(m))
  {
    forall i | 0 <= i < |ids|
      ensures ids[i] in src.witnesses && WitnessRow(m.c, m.notes, ws[i]) == RestoredWitness(m)(src.witnesses[ids[i]])
    {
      assert WitnessExported(src, ids[i], ws[i]);
    }
  }

  lemma WitnessesAreCopied(src: Db, account: nat, io: IOAccount, dst: Db, m: Relocation) returns (moved: map<nat, nat>)
    requires Intact(src) && Exported(src, account, io) && Intact(dst) && MapsReady(src, account, dst, m)
    ensures WitnessesResolve(m.notes, dst.witnesses, FlatWitnesses(io.blocks))
    ensures Copied(src.witnesses, WitnessOf(account), dst.witnesses,
                   Append(dst.witnesses, WitnessRows(m.c, m.notes, FlatWitnesses(io.blocks))), RestoredWitness(m),
                       moved)
  {
    var ids := WitnessesOfAccount(src, account, io);
    WitnessesAreResolved(src, account, io, dst, m, ids);
    hide *;
    WitnessRowsAre(src, m, ids, FlatWitnesses(io.blocks));
    RowsCopied(src.witnesses, WitnessOf(account), dst.witnesses, RestoredWitness(m), ids,
        WitnessRows(m.c, m.notes, FlatWitnesses(io.blocks)));
    moved := IdMap(ids, NextId(dst.witnesses));
  }

  /**
   After the first pass of any exported record into any intact database, the
   look-ups of the spends and of the witnesses all succeed and nothing collides.
   */
  lemma SecondPass(src: Db, account: nat, io: IOAccount, dst: Db, c: Ctx)
    requires Intact(src) && Exported(src, account, io) && Intact(dst) && c.account == NextId(dst.accounts)
    ensures var r := TxsDone(c, Before(dst), io.txs);
            var m := RelocationOf(dst, io, c, r);
            && MapsReady(src, account, dst, m)
            && AddAllSpends(c, r.newTxs, r.newNotes, dst.spends, io.txs).Some?
            && SpendsRestored(c, r.newTxs, r.newNotes, dst.spends, FlatSpends(io.txs),
                   AddAllSpends(c, r.newTxs, r.newNotes, dst.spends, io.txs).value)
            && AddBlocks(c, r.newNotes, dst.witnesses, io.blocks) ==
                 Some(Append(dst.witnesses, WitnessRows(c, r.newNotes, FlatWitnesses(io.blocks))))
  {
    hide *;
    var r := TxsDone(c, Before(dst), io.txs);
    var m := RelocationOf(dst, io, c, r);
    RelocationParts(dst, io, c, r);
    FirstPassRows(src, account, io, dst, c, r);
    TxsCopied(src, account, io, dst, m);
    NotesCopied(src, account, io, dst, m);
    MapsAreReady(src, account, dst, m, Append(dst.txs, TxRows(m.c, io.txs)),
        Append(dst.notes, NoteRows(m.c, NextId(dst.txs), io.txs)));
    SpendsAreResolved(src, account, io, dst, m);
    assert Injective(m.notes) && forall i | 0 <= i < |io.txs| :: io.txs[i].id in m.txs by {
      ReadyParts(src, account, dst, io, m);
    }
    SpendsAdded(c, m.txs, m.notes, dst.spends, io.txs);
    var moved := WitnessesAreCopied(src, account, io, dst, m);
    BlocksAdded(c, m.notes, dst.witnesses, io.blocks);
  }

  lemma RelocationParts(dst: Db, io: IOAccount, c: Ctx, r: Rows)
    ensures var m := RelocationOf(dst, io, c, r);
            && m.c == c && m.txs == r.newTxs && m.notes == r.newNotes
            && m.outputs == IdMap(OutputIds(FlatOutputs(io.txs)), NextId(dst.outputs))
  {
  }

  lemma ReadyParts(src: Db, account: nat, dst: Db, io: IOAccount, m: Relocation)
    requires MapsReady(src, account, dst, m) && Exported(src, account, io)
    ensures Injective(m.txs) && Injective(m.notes)
    ensures forall i | 0 <= i < |io.txs| :: io.txs[i].id in m.txs
  {
    TxIdsOfAccount(src, account, io);
    assert forall i | 0 <= i < |io.txs| :: TxIds(io.txs)[i] == io.txs[i].id;
  }

  // ---------------------------------------------------------------------
  // When a restore succeeds
  // ---------------------------------------------------------------------

  /**
   The only two obstacles, both visible before the import: a stored asset that
   holds the base of another asset of the record, and a user memo left behind by
   a deleted account under the very ids the restored rows are about to get.
   */
  ghost predicate CanRestore(dst: Db, io: IOAccount) {
    (forall i | 0 <= i < |io.assets| :: AssetFits(dst.assets, io.assets[i].asset)) && NoStaleMemo(dst, io)
  }

  ghost predicate NoStaleMemo(dst: Db, io: IOAccount) {
    forall i, j | 0 <= i < |io.userMemos| && 0 <= j < |io.txs| && io.userMemos[i].idTx == io.txs[j].id ::
      (NextId(dst.accounts), NextId(dst.txs) + j) !in dst.userMemos
  }

  lemma StaleMemos(dst: Db, io: IOAccount, c: Ctx, newTxs: map<nat, nat>)
    requires c.account == NextId(dst.accounts) && InOrder(newTxs, TxIds(io.txs), NextId(dst.txs))
    requires forall k :: k in newTxs <==> k in TxIds(io.txs)
    ensures UserMemosFit(c, newTxs, dst.userMemos, io.userMemos) <==> NoStaleMemo(dst, io)
  {
    hide NextId;
    var ids := TxIds(io.txs);
    if NoStaleMemo(dst, io) {
      forall i | 0 <= i < |io.userMemos| && io.userMemos[i].idTx in newTxs
        ensures (c.account, newTxs[io.userMemos[i].idTx]) !in dst.userMemos
      {
        var j := PositionOf(ids, io.userMemos[i].idTx);
        assert io.txs[j].id == ids[j];
      }
    }
    if UserMemosFit(c, newTxs, dst.userMemos, io.userMemos) {
      forall i, j | 0 <= i < |io.userMemos| && 0 <= j < |io.txs| && io.userMemos[i].idTx == io.txs[j].id
        ensures (NextId(dst.accounts), NextId(dst.txs) + j) !in dst.userMemos
      {
        assert ids[j] == io.txs[j].id;
      }
    }
  }

  lemma OwnedIsFree(dst: Db, account: nat)
    requires Owned(dst) && account !in dst.accounts
    ensures account !in dst.tkeys && account !in dst.skeys && account !in dst.okeys
    ensures forall k | k in dst.taddrs :: dst.taddrs[k].account != account
    ensures forall k | k in dst.syncHeights :: k.0 != account
  {
  }

  /** Nothing the account row or its keys, addresses and sync heights need is taken. */
  lemma AccountGoesIn(src: Db, account: nat, io: IOAccount, dst: Db)
    requires Intact(src) && Exported(src, account, io) && Intact(dst)
    ensures var a' := NextId(dst.accounts);
            && !AccountRefused(dst, io, a')
            && AddTaddrs(a', dst.taddrs, io.taddrs) == Some(Append(dst.taddrs, TaddrRows(a', io.taddrs)))
            && AddSyncHeights(a', dst.syncHeights, io.syncHeights).Some?
            && SyncHeightsRestored(a', dst.syncHeights, io.syncHeights,
                   AddSyncHeights(a', dst.syncHeights, io.syncHeights).value)
            && a' !in dst.tkeys && a' !in dst.skeys && a' !in dst.okeys
  {
    hide *;
    var a' := NextId(dst.accounts);
    assert Owned(dst) && a' !in dst.accounts by { IntactParts(dst); }
    OwnedIsFree(dst, a');
    IntactParts(src);
    ExportedParts(src, account, io);
    TaddrsDistinct(src, account, io.taddrs);
    TaddrsAdded(a', dst.taddrs, io.taddrs);
    SyncHeightsAdded(a', dst.syncHeights, io.syncHeights);
    NotRefused(dst, io, a');
  }

  lemma NotRefused(dst: Db, io: IOAccount, account: nat)
    requires account !in dst.tkeys && account !in dst.skeys && account !in dst.okeys
    requires AddTaddrs(account, dst.taddrs, io.taddrs).Some?
             && AddSyncHeights(account, dst.syncHeights, io.syncHeights).Some?
    ensures !AccountRefused(dst, io, account)
  {
    hide AddTaddrs, AddSyncHeights;
  }

  lemma IntactParts(db: Db)
    requires Intact(db)
    ensures Owned(db) && Unique(db.taddrs, TaddrKey)
  {
  }

  lemma ExportedParts(src: Db, account: nat, io: IOAccount)
    requires Exported(src, account, io)
    ensures TaddrsExported(src, account, io.taddrs) && SyncHeightsExported(src, account, io.syncHeights)
            && NoDup(SyncPools(io.syncHeights))
  {
  }

  lemma HistoryGoesIn(src: Db, account: nat, io: IOAccount, dst: Db, c: Ctx)
    requires Intact(src) && Exported(src, account, io) && Intact(dst) && c.account == NextId(dst.accounts)
    ensures HistoryRefused(dst, io, c) <==> !NoStaleMemo(dst, io)
    ensures NoStaleMemo(dst, io) ==>
              var r := TxsDone(c, Before(dst), io.txs);
              && AddUserMemos(c, r.newTxs, dst.userMemos, io.userMemos).Some?
              && UserMemosRestored(c, r.newTxs, dst.userMemos, io.userMemos,
                     AddUserMemos(c, r.newTxs, dst.userMemos, io.userMemos).value)
  {
    var r := TxsDone(c, Before(dst), io.txs);
    hide *;
    FirstPass(src, account, io, dst, c);
    FirstPassRows(src, account, io, dst, c, r);
    SecondPass(src, account, io, dst, c);
    var m := RelocationOf(dst, io, c, r);
    RelocationParts(dst, io, c, r);
    ReadyParts(src, account, dst, io, m);
    ReadyTxs(src, account, dst, io, m);
    StaleMemos(dst, io, c, r.newTxs);
    ExportedMemoTxs(src, account, io);
    UserMemosAdded(c, r.newTxs, dst.userMemos, io.userMemos);
    HistoryRefusedIs(dst, io, c, r);
  }

  lemma HistoryRefusedIs(dst: Db, io: IOAccount, c: Ctx, r: Rows)
    requires AddTxs(c, Before(dst), io.txs) == Some(r)
    ensures HistoryRefused(dst, io, c) <==>
            (|| AddAllSpends(c, r.newTxs, r.newNotes, dst.spends, io.txs).None?
             || AddUserMemos(c, r.newTxs, dst.userMemos, io.userMemos).None?
             || AddBlocks(c, r.newNotes, dst.witnesses, io.blocks).None?)
  {
  }

  lemma ReadyTxs(src: Db, account: nat, dst: Db, io: IOAccount, m: Relocation)
    requires MapsReady(src, account, dst, m) && Exported(src, account, io)
    ensures forall k :: k in m.txs <==> k in TxIds(io.txs)
  {
    TxIdsOfAccount(src, account, io);
  }

  lemma ExportedMemoTxs(src: Db, account: nat, io: IOAccount)
    requires Exported(src, account, io)
    ensures UserMemosExported(src, account, io.userMemos) && NoDup(UserMemoTxs(io.userMemos))
  {
  }

  /** For every intact source and target: restoring succeeds if and only if neither obstacle is there. */
  lemma RestoreSucceedsIff(src: Db, account: nat, io: IOAccount, dst: Db)
    requires Intact(src) && Exported(src, account, io) && Intact(dst)
    ensures CanRestore(dst, io) ==> forall c :: !Refused(dst, io, c)
    ensures forall d', c, r :: Imported(dst, io, d', c, r) ==> CanRestore(dst, io)
  {
    AssetsDistinct(src, account, io);
    assert io.version == DB_VERSION;
    AccountGoesIn(src, account, io, dst);
    DistinctAssetsFit(dst.assets, io.assets);
    hide Intact, Exported, AccountRefused, HistoryRefused, NoStaleMemo, AssetFits, AssetsFit, DistinctAssets, NextId,
        Append, IdMap, TaddrIds;
    forall c | CanRestore(dst, io)
      ensures !Refused(dst, io, c)
    {
      if c.account == NextId(dst.accounts) {
        HistoryGoesIn(src, account, io, dst, c);
      }
    }
    forall d', c, r | Imported(dst, io, d', c, r)
      ensures CanRestore(dst, io)
    {
      HistoryGoesIn(src, account, io, dst, c);
      ImportedNotRefused(dst, io, d', c, r);
    }
  }

  lemma ImportedNotRefused(dst: Db, io: IOAccount, d': Db, c: Ctx, r: Rows)
    requires Imported(dst, io, d', c, r)
    ensures !HistoryRefused(dst, io, c)
    ensures AssetsFit(dst.assets, io.assets)
  {
    hide AddTxs, AddAllSpends, AddUserMemos, AddBlocks, AssetsFit;
  }

  // ---------------------------------------------------------------------
  // What a restore leaves
  // ---------------------------------------------------------------------

  lemma TaddrsCopied(src: Db, account: nat, io: IOAccount, dst: Db, m: Relocation)
    requires TaddrsExported(src, account, io.taddrs) && m.c.taddrs == IdMap(TaddrIds(io.taddrs), NextId(dst.taddrs))
    ensures Copied(src.taddrs, TaddrOf(account), dst.taddrs, Append(dst.taddrs, TaddrRows(m.c.account, io.taddrs)),
                RestoredTaddr(m), m.c.taddrs)
  {
    hide Append, NextId, IdMap, Copied;
    assert RowsAre(src.taddrs, TaddrIds(io.taddrs), TaddrRows(m.c.account, io.taddrs), RestoredTaddr(m));
    RowsCopied(src.taddrs, TaddrOf(account), dst.taddrs, RestoredTaddr(m), TaddrIds(io.taddrs),
        TaddrRows(m.c.account, io.taddrs));
  }

  lemma SyncHeightsAreKept(src: Db, account: nat, io: IOAccount, dst: Db, d': Db, a': nat)
    requires SyncHeightsExported(src, account, io.syncHeights) && forall k | k in dst.syncHeights :: k.0 != a'
    requires SyncHeightsRestored(a', dst.syncHeights, io.syncHeights, d'.syncHeights)
    ensures SyncHeightsKept(src, account, dst, d', a')
  {
    var ss := io.syncHeights;
    forall pool
      ensures (a', pool) in d'.syncHeights <==> (account, pool) in src.syncHeights
      ensures (account, pool) in src.syncHeights ==> d'.syncHeights[(a', pool)] == src.syncHeights[(account, pool)]
    {
      if (account, pool) in src.syncHeights {
        var i := PositionOf(SyncPools(ss), pool);
        assert ss[i].pool == pool;
      }
      if (a', pool) in d'.syncHeights {
        assert (a', pool) !in dst.syncHeights;
        var i := PositionOf(SyncPools(ss), pool);
        assert ss[i].pool == pool;
      }
    }
  }

  lemma KeysAreKept(s: Table<Keys>, account: nat, d: Table<Keys>, d': Table<Keys>, a': nat)
    requires Some(d') == AddKeys(d, a', KeysOf(s, account))
    ensures KeysKept(s, account, d, d', a')
  {
  }

  lemma RowAndFolder(src: Db, account: nat, io: IOAccount, dst: Db, d': Db, c: Ctx)
    requires account in src.accounts && io.version == DB_VERSION && io.cols == src.accounts[account].cols
    requires io.folder == FolderName(src, src.accounts[account].folder)
    requires c.account == NextId(dst.accounts) && c.account in d'.accounts
    requires FolderChosen(dst.folders, io.folder, d'.folders, d'.accounts[c.account].folder)
    requires d'.accounts ==
               Shifted(dst.accounts)[c.account := Account(RestoredCols(io), d'.accounts[c.account].folder, 1)]
    ensures d'.accounts.Keys == dst.accounts.Keys + {c.account} && c.account !in dst.accounts
    ensures forall k | k in dst.accounts :: d'.accounts[k] == dst.accounts[k].(position := dst.accounts[k].position + 1)
    ensures d'.accounts[c.account].cols == src.accounts[account].cols && d'.accounts[c.account].position == 1
    ensures FolderName(d', d'.accounts[c.account].folder) == FolderName(src, src.accounts[account].folder)
    ensures Extends(dst.folders, d'.folders) && (forall f | d'.accounts[c.account].folder == Some(f) :: f in d'.folders)
  {
  }

  lemma AccountIsRestored(src: Db, account: nat, io: IOAccount, dst: Db, d': Db, m: Relocation)
    requires Intact(src) && Exported(src, account, io) && Intact(dst) && ImportedAccount(dst, io, d', m.c)
    ensures AccountRestored(src, account, dst, d', m)
  {
    hide *;
    AccountGoesIn(src, account, io, dst);
    IntactParts(dst);
    ImportedAccountParts(dst, io, d', m.c);
    OwnedIsFree(dst, m.c.account);
    ExportedParts(src, account, io);
    ExportedRow(src, account, io);
    RowAndFolder(src, account, io, dst, d', m.c);
    KeysAreKept(src.tkeys, account, dst.tkeys, d'.tkeys, m.c.account);
    KeysAreKept(src.skeys, account, dst.skeys, d'.skeys, m.c.account);
    KeysAreKept(src.okeys, account, dst.okeys, d'.okeys, m.c.account);
    SyncHeightsAreKept(src, account, io, dst, d', m.c.account);
    TaddrsCopied(src, account, io, dst, m);
    AccountIs(src, account, dst, d', m);
  }

  lemma ExportedRow(src: Db, account: nat, io: IOAccount)
    requires Exported(src, account, io)
    ensures account in src.accounts && io.version == DB_VERSION && io.cols == src.accounts[account].cols
    ensures io.folder == FolderName(src, src.accounts[account].folder)
    ensures io.tkeys == KeysOf(src.tkeys, account) && io.skeys == KeysOf(src.skeys, account)
            && io.okeys == KeysOf(src.okeys, account)
  {
  }

  lemma ImportedAccountParts(d: Db, io: IOAccount, d': Db, c: Ctx)
    requires ImportedAccount(d, io, d', c)
    ensures c.account == NextId(d.accounts) && c.taddrs == IdMap(TaddrIds(io.taddrs), NextId(d.taddrs))
            && c.account in d'.accounts
    ensures FolderChosen(d.folders, io.folder, d'.folders, d'.accounts[c.account].folder)
    ensures d'.accounts == Shifted(d.accounts)[c.account := Account(RestoredCols(io), d'.accounts[c.account].folder, 1)]
    ensures Some(d'.tkeys) == AddKeys(d.tkeys, c.account, io.tkeys)
    ensures Some(d'.skeys) == AddKeys(d.skeys, c.account, io.skeys)
    ensures Some(d'.okeys) == AddKeys(d.okeys, c.account, io.okeys)
    ensures Some(d'.taddrs) == AddTaddrs(c.account, d.taddrs, io.taddrs)
    ensures Some(d'.syncHeights) == AddSyncHeights(c.account, d.syncHeights, io.syncHeights)
  {
  }

  lemma AccountIs(src: Db, account: nat, dst: Db, d': Db, m: Relocation)
    requires m.c.account !in dst.accounts && account in src.accounts
             && d'.accounts.Keys == dst.accounts.Keys + {m.c.account}
    requires forall k | k in dst.accounts ::
               d'.accounts[k] == dst.accounts[k].(position := dst.accounts[k].position + 1)
    requires d'.accounts[m.c.account].cols == src.accounts[account].cols && d'.accounts[m.c.account].position == 1
    requires FolderName(d', d'.accounts[m.c.account].folder) == FolderName(src, src.accounts[account].folder)
    requires Extends(dst.folders, d'.folders) && forall f | d'.accounts[m.c.account].folder == Some(f) ::
               f in d'.folders
    requires KeysKept(src.tkeys, account, dst.tkeys, d'.tkeys, m.c.account)
    requires KeysKept(src.skeys, account, dst.skeys, d'.skeys, m.c.account)
    requires KeysKept(src.okeys, account, dst.okeys, d'.okeys, m.c.account)
    requires SyncHeightsKept(src, account, dst, d', m.c.account)
    requires Copied(src.taddrs, TaddrOf(account), dst.taddrs, d'.taddrs, RestoredTaddr(m), m.c.taddrs)
    ensures AccountRestored(src, account, dst, d', m)
  {
    hide FolderName, Extends, KeysKept, SyncHeightsKept, Copied;
  }

  lemma MergedIs<T(!new), K(!new)>(src: Table<T>, dst: Table<T>, t': Table<T>, key: T -> K, m: map<nat, nat>)
    requires Unique(src, key) && Unique(t', key) && Extends(dst, t')
    requires forall k | k in t' && k !in dst :: exists i :: i in src && src[i] == t'[k]
    requires forall k | k in src :: k in m && m[k] in t' && key(t'[m[k]]) == key(src[k])
    ensures Merged(src, dst, t', key, m)
  {
    forall k | k in src
      ensures if HasKey(dst, key, key(src[k])) then m[k] in dst else t'[m[k]] == src[k]
    {
      if HasKey(dst, key, key(src[k])) {
        var x :| x in dst && key(dst[x]) == key(src[k]);
        assert t'[x] == dst[x];
      } else {
        assert m[k] !in dst;
        var x :| x in src && src[x] == t'[m[k]];
      }
    }
  }

  lemma CategoriesAreKept(src: Db, io: IOAccount, dst: Db, d': Db, m: Relocation)
    requires Lists(CategoryIds(io.categories), src.categories, AnyCategory()) && Unique(src.categories, CategoryKey)
    requires forall i | 0 <= i < |io.categories| ::
               io.categories[i].id in src.categories && io.categories[i].category == src.categories[io.categories[i].id]
    requires CategoriesMerged(dst.categories, io.categories, d'.categories, m.c.categories)
    requires Unique(d'.categories, CategoryKey)
    ensures Merged(src.categories, dst.categories, d'.categories, CategoryKey, m.c.categories)
  {
    forall k | k in src.categories
      ensures k in m.c.categories && m.c.categories[k] in d'.categories
      ensures d'.categories[m.c.categories[k]].name == src.categories[k].name
    {
      assert AnyCategory()(src.categories[k]);
      var i := PositionOf(CategoryIds(io.categories), k);
      assert io.categories[i].id == k;
    }
    MergedIs(src.categories, dst.categories, d'.categories, CategoryKey, m.c.categories);
  }

  lemma AssetsAreKept(src: Db, io: IOAccount, dst: Db, d': Db, m: Relocation)
    requires Lists(AssetIds(io.assets), src.assets, AnyAsset()) && Unique(src.assets, AssetKey)
    requires forall i | 0 <= i < |io.assets| ::
               io.assets[i].id in src.assets && io.assets[i].asset == src.assets[io.assets[i].id]
    requires AssetsMerged(dst.assets, io.assets, d'.assets, m.c.assets) && Unique(d'.assets, AssetKey)
    ensures Merged(src.assets, dst.assets, d'.assets, AssetKey, m.c.assets)
  {
    forall k | k in src.assets
      ensures k in m.c.assets && m.c.assets[k] in d'.assets
              && AssetKey(d'.assets[m.c.assets[k]]) == AssetKey(src.assets[k])
    {
      assert AnyAsset()(src.assets[k]);
      var i := PositionOf(AssetIds(io.assets), k);
      assert io.assets[i].id == k;
    }
    MergedIs(src.assets, dst.assets, d'.assets, AssetKey, m.c.assets);
  }

  lemma SharedIsRestored(src: Db, account: nat, io: IOAccount, dst: Db, d': Db, m: Relocation)
    requires Intact(src) && Exported(src, account, io) && ImportedShared(dst, io, d', m.c)
    ensures SharedRestored(src, account, dst, d', m)
  {
    hide TaddrsExported, SyncHeightsExported, TxsExported, UserMemosExported, BlocksExported, Merged;
    hide CategoriesMerged, AssetsMerged, Unique, AssetsFit, Lists;
    CategoriesAreKept(src, io, dst, d', m);
    AssetsAreKept(src, io, dst, d', m);
  }

  lemma HistoryIsRestored(src: Db, account: nat, io: IOAccount, dst: Db, d': Db, c: Ctx, r: Rows)
    requires Intact(src) && Exported(src, account, io) && Intact(dst) && c.account == NextId(dst.accounts)
    requires ImportedHistory(dst, io, d', c, r)
    ensures HistoryRestored(src, account, dst, d', RelocationOf(dst, io, c, r))
    ensures MapsReady(src, account, dst, RelocationOf(dst, io, c, r))
  {
    hide *;
    var m := RelocationOf(dst, io, c, r);
    FirstPass(src, account, io, dst, c);
    SecondPass(src, account, io, dst, c);
    HistoryParts(dst, io, d', c, r);
    RelocationParts(dst, io, c, r);
    TxsDoneParts(c, Before(dst), io.txs);
    BeforeParts(dst);
    FirstPassRows(src, account, io, dst, c, r);
    TxsCopied(src, account, io, dst, m);
    NotesCopied(src, account, io, dst, m);
    OutputsCopied(src, account, io, dst, m);
    SpendsAreCopied(src, account, io, dst, m, d'.spends);
    var memos := MemosAreCopied(src, account, io, dst, m);
    var witnesses := WitnessesAreCopied(src, account, io, dst, m);
    HistoryIs(src, account, dst, d', m, memos, witnesses);
  }

  lemma BeforeParts(d: Db)
    ensures Before(d) == Rows(d.txs, d.notes, d.outputs, d.memos, map[], map[])
  {
  }

  lemma HistoryParts(d: Db, io: IOAccount, d': Db, c: Ctx, r: Rows)
    requires ImportedHistory(d, io, d', c, r)
    ensures AddTxs(c, Before(d), io.txs) == Some(r)
    ensures d'.txs == r.txs && d'.notes == r.notes && d'.outputs == r.outputs && d'.memos == r.memos
    ensures Some(d'.spends) == AddAllSpends(c, r.newTxs, r.newNotes, d.spends, io.txs)
    ensures Some(d'.userMemos) == AddUserMemos(c, r.newTxs, d.userMemos, io.userMemos)
    ensures d'.headers == AddHeaders(d.headers, io.blocks)
    ensures Some(d'.witnesses) == AddBlocks(c, r.newNotes, d.witnesses, io.blocks)
  {
  }

  lemma HistoryIs(src: Db, account: nat, dst: Db, d': Db, m: Relocation, memos: map<nat, nat>, witnesses: map<nat, nat>)
    requires Copied(src.txs, TxOf(account), dst.txs, d'.txs, RestoredTx(m), m.txs)
    requires Copied(src.notes, NoteOf(account), dst.notes, d'.notes, RestoredNote(m), m.notes)
    requires Copied(src.outputs, OutputOf(account), dst.outputs, d'.outputs, RestoredOutput(m), m.outputs)
    requires Copied(src.spends, SpendOf(account), dst.spends, d'.spends, RestoredSpend(m), SpentMap(src, account, m))
    requires Copied(src.memos, MemoOf(account), dst.memos, d'.memos, RestoredMemo(m), memos)
    requires Copied(src.witnesses, WitnessOf(account), dst.witnesses, d'.witnesses, RestoredWitness(m), witnesses)
    ensures HistoryRestored(src, account, dst, d', m)
  {
    hide Copied, SpentMap;
  }

  lemma UserMemosAreKept(src: Db, account: nat, io: IOAccount, dst: Db, d': Db, m: Relocation)
    requires UserMemosExported(src, account, io.userMemos)
    requires UserMemosRestored(m.c, m.txs, dst.userMemos, io.userMemos, d'.userMemos)
    ensures UserMemosKept(src, account, dst, d', m)
  {
    var us := io.userMemos;
    forall k | k in src.userMemos && k.0 == account && k.1 in m.txs
      ensures (m.c.account, m.txs[k.1]) in d'.userMemos && d'.userMemos[(m.c.account, m.txs[k.1])] == src.userMemos[k]
    {
      var i := PositionOf(UserMemoTxs(us), k.1);
      assert us[i].idTx == k.1;
    }
    forall k | k in d'.userMemos && k !in dst.userMemos
      ensures k.0 == m.c.account && exists tx :: tx in m.txs && m.txs[tx] == k.1 && (account, tx) in src.userMemos
    {
      var i :| 0 <= i < |us| && us[i].idTx in m.txs && k == (m.c.account, m.txs[us[i].idTx]);
      assert (account, us[i].idTx) in src.userMemos;
    }
  }

  lemma BlockAt(src: Db, account: nat, bs: seq<IOBlock>, i: nat)
    requires BlocksExported(src, account, bs) && i < |bs|
    ensures bs[i].height in src.headers && src.headers[bs[i].height] == bs[i].header
    ensures HasWitnessAt(src, account, bs[i].height)
  {
    assert BlockExported(src, account, bs[i]);
  }

  lemma HeadersAreKept(src: Db, account: nat, io: IOAccount, dst: Db, d': Db)
    requires Exported(src, account, io) && d'.headers == AddHeaders(dst.headers, io.blocks)
    ensures HeadersKept(src, account, dst, d')
  {
    hide SharedExported, TaddrsExported, SyncHeightsExported, TxsExported, UserMemosExported;
    HeadersAdded(dst.headers, io.blocks);
    forall h | h in d'.headers && h !in dst.headers
      ensures HasWitnessAt(src, account, h) && h in src.headers && d'.headers[h] == src.headers[h]
    {
      var i := PositionOf(BlockHeights(io.blocks), h);
      BlockAt(src, account, io.blocks, i);
    }
  }

  /**
   The round trip: whatever is in the two databases, the restored account is the
   original row for row under injective id maps, and the rest is untouched. User
   memos of the original arrive; what else may wait under the new ids is below.
   */
  lemma RoundTrip(src: Db, account: nat, io: IOAccount, dst: Db, d': Db, c: Ctx, r: Rows)
    requires Intact(src) && Exported(src, account, io) && Intact(dst) && Imported(dst, io, d', c, r)
    ensures Restored(src, account, dst, d', RelocationOf(dst, io, c, r))
    ensures MapsReady(src, account, dst, RelocationOf(dst, io, c, r))
  {
    assert c.account == NextId(dst.accounts);
    RestoreSucceedsIff(src, account, io, dst);
    hide *;
    var m := RelocationOf(dst, io, c, r);
    ImportedParts(dst, io, d', c, r);
    RelocationParts(dst, io, c, r);
    AccountIsRestored(src, account, io, dst, d', m);
    SharedIsRestored(src, account, io, dst, d', m);
    HistoryIsRestored(src, account, io, dst, d', c, r);
    HistoryParts(dst, io, d', c, r);
    FirstPass(src, account, io, dst, c);
    CanRestoreParts(dst, io);
    HistoryGoesIn(src, account, io, dst, c);
    ExportedMemoTxs(src, account, io);
    UserMemosAreKept(src, account, io, dst, d', m);
    HeadersAreKept(src, account, io, dst, d');
    RestoredIs(src, account, dst, d', m);
  }

  /**
   The category of a restored transaction has the original's name; unless `dst` had one of that
   name, it is the original row, income flag included.
   */
  lemma RestoredCategory(src: Db, account: nat, io: IOAccount, dst: Db, d': Db, c: Ctx, r: Rows, t: nat)
    requires Intact(src) && Exported(src, account, io) && Intact(dst) && Imported(dst, io, d', c, r)
    requires t in src.txs && src.txs[t].account == account && src.txs[t].category.Some?
    ensures t in r.newTxs && r.newTxs[t] in d'.txs && d'.txs[r.newTxs[t]].category.Some?
    ensures var k, k' := src.txs[t].category.value, d'.txs[r.newTxs[t]].category.value;
            && k in src.categories && k' in d'.categories && d'.categories[k'].name == src.categories[k].name
            && (if HasKey(dst.categories, CategoryKey, src.categories[k].name)
                then k' in dst.categories && d'.categories[k'] == dst.categories[k']
                else d'.categories[k'] == src.categories[k])
  {
    RoundTrip(src, account, io, dst, d', c, r);
    var m := RelocationOf(dst, io, c, r);
    assert TxOf(account)(src.txs[t]) && m.c == c && m.txs == r.newTxs;
    hide RelocationOf, Exported, Imported, AccountRestored, UserMemosKept, HeadersKept, MapsReady;
    assert src.txs[t].category.value in src.categories;
    hide Intact;
    MovedTx(src, account, dst, d', m, t);
  }

  /** The restored account is in a folder of the same name; in none if the original is, or its folder has no name. */
  lemma RestoredFolder(src: Db, account: nat, io: IOAccount, dst: Db, d': Db, c: Ctx, r: Rows)
    requires Intact(src) && Exported(src, account, io) && Imported(dst, io, d', c, r)
    ensures account in src.accounts && c.account in d'.accounts
    ensures var f, f' := src.accounts[account].folder, d'.accounts[c.account].folder;
            if f.Some? && f.value in src.folders && src.folders[f.value] != ""
            then f'.Some? && f'.value in d'.folders && d'.folders[f'.value] == src.folders[f.value]
            else f'.None?
  {
    ImportedParts(dst, io, d', c, r);
    ImportedAccountParts(dst, io, d', c);
    hide Intact, Imported, ImportedAccount, SharedExported, TaddrsExported, SyncHeightsExported, TxsExported,
         UserMemosExported, BlocksExported, AddTaddrs, AddSyncHeights, AddKeys, Append;
  }

  lemma MovedTx(src: Db, account: nat, dst: Db, d': Db, m: Relocation, t: nat)
    requires Copied(src.txs, TxOf(account), dst.txs, d'.txs, RestoredTx(m), m.txs)
    requires t in src.txs && src.txs[t].account == account
    ensures t in m.txs && m.txs[t] in d'.txs && d'.txs[m.txs[t]] == RestoredTx(m)(src.txs[t])
  {
    assert TxOf(account)(src.txs[t]);
  }

  lemma RestoredIs(src: Db, account: nat, dst: Db, d': Db, m: Relocation)
    requires AccountRestored(src, account, dst, d', m) && SharedRestored(src, account, dst, d', m)
    requires HistoryRestored(src, account, dst, d', m) && UserMemosKept(src, account, dst, d', m)
             && HeadersKept(src, account, dst, d')
    ensures Restored(src, account, dst, d', m)
  {
    hide AccountRestored, SharedRestored, HistoryRestored, UserMemosKept, HeadersKept;
  }

  lemma CanRestoreParts(dst: Db, io: IOAccount)
    requires CanRestore(dst, io)
    ensures NoStaleMemo(dst, io)
  {
  }

  lemma ImportedParts(dst: Db, io: IOAccount, d': Db, c: Ctx, r: Rows)
    requires Imported(dst, io, d', c, r)
    ensures ImportedShared(dst, io, d', c) && ImportedAccount(dst, io, d', c) && ImportedHistory(dst, io, d', c, r)
  {
  }

  lemma RestoredParts(src: Db, account: nat, dst: Db, d': Db, m: Relocation)
    requires Restored(src, account, dst, d', m)
    ensures m.c.account !in dst.accounts
    ensures Copied(src.notes, NoteOf(account), dst.notes, d'.notes, RestoredNote(m), m.notes)
    ensures Copied(src.spends, SpendOf(account), dst.spends, d'.spends, RestoredSpend(m), SpentMap(src, account, m))
    ensures forall k | k in src.assets :: k in m.c.assets
  {
    hide Copied, HeadersKept, UserMemosKept, SpentMap;
  }

  // ---------------------------------------------------------------------
  // Memos a deleted account left behind
  // ---------------------------------------------------------------------

  /** A restored transaction has a user memo exactly where the original has one; the texts are the same. */
  ghost predicate UserMemosIsomorphic(src: Db, account: nat, d': Db, m: Relocation) {
    forall t | t in m.txs :: MemoAgrees(src, account, d', m, t)
  }

  ghost predicate MemoAgrees(src: Db, account: nat, d': Db, m: Relocation, t: nat)
    requires t in m.txs
  {
    && ((m.c.account, m.txs[t]) in d'.userMemos <==> (account, t) in src.userMemos)
    && ((account, t) in src.userMemos ==> d'.userMemos[(m.c.account, m.txs[t])] == src.userMemos[(account, t)])
  }

  /** No leftover memo waits under the ids of a restored transaction that has none in the record. */
  ghost predicate NoForeignMemo(dst: Db, io: IOAccount) {
    forall j | 0 <= j < |io.txs| && io.txs[j].id !in UserMemoTxs(io.userMemos) ::
      (NextId(dst.accounts), NextId(dst.txs) + j) !in dst.userMemos
  }

  lemma IsomorphicIff(src: Db, account: nat, io: IOAccount, dst: Db, d': Db, m: Relocation)
    requires m.c.account == NextId(dst.accounts) && UserMemosKept(src, account, dst, d', m)
    requires Injective(m.txs) && InOrder(m.txs, TxIds(io.txs), NextId(dst.txs)) && forall k ::
               k in m.txs <==> k in TxIds(io.txs)
    requires forall t :: (account, t) in src.userMemos <==> t in UserMemoTxs(io.userMemos)
    ensures UserMemosIsomorphic(src, account, d', m) <==> NoForeignMemo(dst, io)
  {
    hide NextId, UserMemoTxs, UserMemosKept, Injective, MemoAgrees, InOrder;
    var ids := TxIds(io.txs);
    if NoForeignMemo(dst, io) {
      forall t | t in m.txs
        ensures MemoAgrees(src, account, d', m, t)
      {
        var j := PositionOf(ids, t);
        MemoAgreesIff(src, account, dst, d', m, ids, j, UserMemoTxs(io.userMemos));
        assert io.txs[j].id == t;
      }
    }
    if UserMemosIsomorphic(src, account, d', m) {
      forall j | 0 <= j < |io.txs| && io.txs[j].id !in UserMemoTxs(io.userMemos)
        ensures (NextId(dst.accounts), NextId(dst.txs) + j) !in dst.userMemos
      {
        MemoAgreesIff(src, account, dst, d', m, ids, j, UserMemoTxs(io.userMemos));
        assert MemoAgrees(src, account, d', m, ids[j]);
      }
    }
  }

  lemma MemoAgreesIff(src: Db, account: nat, dst: Db, d': Db, m: Relocation, ids: seq<nat>, j: nat, memoTxs: seq<nat>)
    requires UserMemosKept(src, account, dst, d', m) && Injective(m.txs) && InOrder(m.txs, ids, NextId(dst.txs))
             && j < |ids|
    requires forall t :: (account, t) in src.userMemos <==> t in memoTxs
    ensures ids[j] in m.txs
    ensures MemoAgrees(src, account, d', m, ids[j]) <==>
            (ids[j] !in memoTxs ==> (m.c.account, NextId(dst.txs) + j) !in dst.userMemos)
  {
    hide NextId;
    var key := (m.c.account, NextId(dst.txs) + j);
    assert m.txs[ids[j]] == key.1;
    if key in d'.userMemos && key !in dst.userMemos {
      var t :| t in m.txs && m.txs[t] == key.1 && (account, t) in src.userMemos;
      assert t == ids[j];
    }
  }

  lemma MemosListed(src: Db, account: nat, us: seq<IOUserMemo>)
    requires UserMemosExported(src, account, us)
    ensures forall t :: (account, t) in src.userMemos <==> t in UserMemoTxs(us)
  {
    forall t
      ensures (account, t) in src.userMemos <==> t in UserMemoTxs(us)
    {
      if t in UserMemoTxs(us) {
        var i := PositionOf(UserMemoTxs(us), t);
        assert us[i].idTx == t;
      }
    }
  }

  lemma UserMemosOfRestored(src: Db, account: nat, dst: Db, d': Db, m: Relocation)
    requires Restored(src, account, dst, d', m)
    ensures UserMemosKept(src, account, dst, d', m)
  {
    hide AccountRestored, SharedRestored, HistoryRestored, UserMemosKept, HeadersKept;
  }

  lemma RestoredInOrder(src: Db, account: nat, io: IOAccount, dst: Db, d': Db, c: Ctx, r: Rows)
    requires Intact(src) && Exported(src, account, io) && Intact(dst) && Imported(dst, io, d', c, r)
    ensures c.account == NextId(dst.accounts) && Injective(r.newTxs)
    ensures InOrder(r.newTxs, TxIds(io.txs), NextId(dst.txs)) && forall k :: k in r.newTxs <==> k in TxIds(io.txs)
  {
    hide *;
    var m := RelocationOf(dst, io, c, r);
    RoundTrip(src, account, io, dst, d', c, r);
    ImportedParts(dst, io, d', c, r);
    ImportedAccountParts(dst, io, d', c);
    HistoryParts(dst, io, d', c, r);
    FirstPass(src, account, io, dst, c);
    FirstPassRows(src, account, io, dst, c, r);
    RelocationParts(dst, io, c, r);
    ReadyParts(src, account, dst, io, m);
    ReadyTxs(src, account, dst, io, m);
  }

  /**
   User memos survive the round trip exactly if none that a deleted account left
   behind sits under the ids the memo-less transactions of the record are about to get.
   */
  lemma UserMemosIsomorphicIff(src: Db, account: nat, io: IOAccount, dst: Db, d': Db, c: Ctx, r: Rows)
    requires Intact(src) && Exported(src, account, io) && Intact(dst) && Imported(dst, io, d', c, r)
    ensures UserMemosIsomorphic(src, account, d', RelocationOf(dst, io, c, r)) <==> NoForeignMemo(dst, io)
  {
    hide *;
    var m := RelocationOf(dst, io, c, r);
    RoundTrip(src, account, io, dst, d', c, r);
    UserMemosOfRestored(src, account, dst, d', m);
    RestoredInOrder(src, account, io, dst, d', c, r);
    RelocationParts(dst, io, c, r);
    ExportedMemoTxs(src, account, io);
    MemosListed(src, account, io.userMemos);
    IsomorphicIff(src, account, io, dst, d', m);
  }

  /** Every memo of the restored account belongs to a restored transaction whose original has one. */
  ghost predicate OnlyOwnMemos(src: Db, account: nat, d': Db, m: Relocation) {
    forall k | k in d'.userMemos && k.0 == m.c.account ::
      exists t :: t in m.txs && m.txs[t] == k.1 && (account, t) in src.userMemos
  }

  lemma OwnMemosIff(src: Db, account: nat, io: IOAccount, dst: Db, d': Db, m: Relocation)
    requires m.c.account == NextId(dst.accounts) && UserMemosKept(src, account, dst, d', m) && NoStaleMemo(dst, io)
    requires InOrder(m.txs, TxIds(io.txs), NextId(dst.txs)) && forall k :: k in m.txs <==> k in TxIds(io.txs)
    requires forall t :: (account, t) in src.userMemos <==> t in UserMemoTxs(io.userMemos)
    ensures OnlyOwnMemos(src, account, d', m) <==> forall k | k in dst.userMemos :: k.0 != NextId(dst.accounts)
  {
    hide NextId, NoStaleMemo, InOrder, TxIds, UserMemoTxs;
    if OnlyOwnMemos(src, account, d', m) {
      forall k | k in dst.userMemos && k.0 == NextId(dst.accounts)
        ensures false
      {
        LeftoverIsStale(src, account, io, dst, d', m, k);
      }
    }
  }

  lemma LeftoverIsStale(src: Db, account: nat, io: IOAccount, dst: Db, d': Db, m: Relocation, k: (nat, nat))
    requires m.c.account == NextId(dst.accounts) && UserMemosKept(src, account, dst, d', m) && NoStaleMemo(dst, io)
    requires InOrder(m.txs, TxIds(io.txs), NextId(dst.txs)) && forall t :: t in m.txs <==> t in TxIds(io.txs)
    requires forall t :: (account, t) in src.userMemos <==> t in UserMemoTxs(io.userMemos)
    requires OnlyOwnMemos(src, account, d', m) && k in dst.userMemos
    ensures k.0 != NextId(dst.accounts)
  {
    hide *;
    if k.0 == m.c.account {
      OldMemosStay(src, account, dst, d', m);
      var t := OwnerOf(src, account, d', m, k);
      var j := PositionOf(TxIds(io.txs), t);
      var i := PositionOf(UserMemoTxs(io.userMemos), t);
      OrderedAt(m.txs, TxIds(io.txs), NextId(dst.txs), j);
      NotStaleAt(dst, io, i, j);
    }
  }

  lemma OldMemosStay(src: Db, account: nat, dst: Db, d': Db, m: Relocation)
    requires UserMemosKept(src, account, dst, d', m)
    ensures forall k | k in dst.userMemos :: k in d'.userMemos && d'.userMemos[k] == dst.userMemos[k]
  {
  }

  lemma OwnerOf(src: Db, account: nat, d': Db, m: Relocation, k: (nat, nat)) returns (t: nat)
    requires OnlyOwnMemos(src, account, d', m) && k in d'.userMemos && k.0 == m.c.account
    ensures t in m.txs && m.txs[t] == k.1 && (account, t) in src.userMemos
  {
    t :| t in m.txs && m.txs[t] == k.1 && (account, t) in src.userMemos;
  }

  lemma OrderedAt(m: map<nat, nat>, ids: seq<nat>, first: nat, j: nat)
    requires InOrder(m, ids, first) && j < |ids|
    ensures ids[j] in m && m[ids[j]] == first + j
  {
  }

  lemma NotStaleAt(dst: Db, io: IOAccount, i: nat, j: nat)
    requires NoStaleMemo(dst, io) && i < |UserMemoTxs(io.userMemos)| && j < |TxIds(io.txs)|
    requires UserMemoTxs(io.userMemos)[i] == TxIds(io.txs)[j]
    ensures (NextId(dst.accounts), NextId(dst.txs) + j) !in dst.userMemos
  {
  }

  /** And it starts out with these memos alone exactly if no leftover memo waits under its id at all. */
  lemma OnlyOwnMemosIff(src: Db, account: nat, io: IOAccount, dst: Db, d': Db, c: Ctx, r: Rows)
    requires Intact(src) && Exported(src, account, io) && Intact(dst) && Imported(dst, io, d', c, r)
    ensures OnlyOwnMemos(src, account, d', RelocationOf(dst, io, c, r)) <==>
              forall k | k in dst.userMemos :: k.0 != NextId(dst.accounts)
  {
    hide *;
    var m := RelocationOf(dst, io, c, r);
    RoundTrip(src, account, io, dst, d', c, r);
    UserMemosOfRestored(src, account, dst, d', m);
    RestoredInOrder(src, account, io, dst, d', c, r);
    RelocationParts(dst, io, c, r);
    ExportedMemoTxs(src, account, io);
    MemosListed(src, account, io.userMemos);
    RestoreSucceedsIff(src, account, io, dst);
    CanRestoreParts(dst, io);
    OwnMemosIff(src, account, io, dst, d', m);
  }
}
