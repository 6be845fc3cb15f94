/**
 Flattening an account into a backup record.
 */
module BackupExport {
  import opened Wrappers
  import opened Tables
  import opened Schema
  import opened Backup

  // ---------------------------------------------------------------------
  // WHERE clauses
  // ---------------------------------------------------------------------

  function TaddrOf(account: nat): Taddr -> bool { (r: Taddr) => r.account == account }
  function TxOf(account: nat): Tx -> bool { (r: Tx) => r.account == account }
  function NoteOf(account: nat): Note -> bool { (r: Note) => r.account == account }
  function OutputOf(account: nat): Output -> bool { (r: Output) => r.account == account }
  function MemoOf(account: nat): Memo -> bool { (r: Memo) => r.account == account }
  function WitnessOf(account: nat): Witness -> bool { (r: Witness) => r.account == account }
  function SpendOf(account: nat): Spend -> bool { (r: Spend) => r.account == account }
  function NoteOfTx(tx: nat): Note -> bool { (r: Note) => r.tx == tx }
  function OutputOfTx(tx: nat): Output -> bool { (r: Output) => r.tx == tx }
  function SpendOfTx(tx: nat): Spend -> bool { (r: Spend) => r.tx == tx }
  function MemoOfNote(note: nat): Memo -> bool { (r: Memo) => r.note == Some(note) }
  function MemoOfOutput(output: nat): Memo -> bool { (r: Memo) => r.output == Some(output) }
  function WitnessAt(account: nat,
          height: nat): Witness -> bool { (r: Witness) => r.account == account && r.height == height }
  function AnyCategory(): Category -> bool { (r: Category) => true }
  function AnyAsset(): Asset -> bool { (r: Asset) => true }

  function NoteIds(ns: seq<IONote>): seq<nat> { seq(|ns|, i requires 0 <= i < |ns| => ns[i].id) }
  function OutputIds(os: seq<IOOutput>): seq<nat> { seq(|os|, i requires 0 <= i < |os| => os[i].id) }
  function SpendIds(ss: seq<IOSpend>): seq<nat> { seq(|ss|, i requires 0 <= i < |ss| => ss[i].idNote) }
  function TxIds(ts: seq<IOTx>): seq<nat> { seq(|ts|, i requires 0 <= i < |ts| => ts[i].id) }
  function BlockHeights(bs: seq<IOBlock>): seq<nat> { seq(|bs|, i requires 0 <= i < |bs| => bs[i].height) }
  function SyncPools(ss: seq<IOSync>): seq<nat> { seq(|ss|, i requires 0 <= i < |ss| => ss[i].pool) }
  function UserMemoTxs(us: seq<IOUserMemo>): seq<nat> { seq(|us|, i requires 0 <= i < |us| => us[i].idTx) }

  // ---------------------------------------------------------------------
  // What an exported record says about the database
  // ---------------------------------------------------------------------

  /** The memo columns of a LEFT JOIN on the note. */
  ghost predicate NoteMemoExported(db: Db, io: IONote) {
    if exists m :: m in db.memos && db.memos[m].note == Some(io.id)
    then exists m :: m in db.memos && db.memos[m].note == Some(io.id) && io.vout == Some(db.memos[m].vout)
                     && io.memoText == db.memos[m].text && io.memoBytes == Some(db.memos[m].bytes)
    else io.vout == None && io.memoText == None && io.memoBytes == None
  }

  ghost predicate NoteExported(db: Db, io: IONote) {
    && io.id in db.notes && io.cols == db.notes[io.id].cols.(value := AsU64(db.notes[io.id].cols.value))
    && io.taddress == db.notes[io.id].taddress && io.asset == db.notes[io.id].asset
    && NoteMemoExported(db, io)
  }

  ghost predicate OutputMemoExported(db: Db, io: IOOutput) {
    if exists m :: m in db.memos && db.memos[m].output == Some(io.id)
    then exists m :: m in db.memos && db.memos[m].output == Some(io.id)
                     && io.memoText == db.memos[m].text && io.memoBytes == Some(db.memos[m].bytes)
    else io.memoText == None && io.memoBytes == None
  }

  ghost predicate OutputExported(db: Db, io: IOOutput) {
    && io.id in db.outputs && io.cols == db.outputs[io.id].cols.(value := AsU64(db.outputs[io.id].cols.value))
    && OutputMemoExported(db, io)
  }

  ghost predicate SpendExported(db: Db, io: IOSpend) {
    && io.idNote in db.spends
    && var s := db.spends[io.idNote]; io.height == s.height && io.pool == s.pool && io.value == AsU64(s.value)
  }

  ghost predicate NotesExported(db: Db, tx: nat, ns: seq<IONote>) {
    Lists(NoteIds(ns), db.notes, NoteOfTx(tx)) && forall i | 0 <= i < |ns| :: NoteExported(db, ns[i])
  }

  ghost predicate OutputsExported(db: Db, tx: nat, os: seq<IOOutput>) {
    Lists(OutputIds(os), db.outputs, OutputOfTx(tx)) && forall i | 0 <= i < |os| :: OutputExported(db, os[i])
  }

  ghost predicate SpendsExported(db: Db, tx: nat, ss: seq<IOSpend>) {
    Lists(SpendIds(ss), db.spends, SpendOfTx(tx)) && forall i | 0 <= i < |ss| :: SpendExported(db, ss[i])
  }

  ghost predicate TxExported(db: Db, io: IOTx) {
    && io.id in db.txs && io.cols == db.txs[io.id].cols && io.category == db.txs[io.id].category
    && NotesExported(db, io.id, io.notes) && OutputsExported(db, io.id, io.outputs)
    && SpendsExported(db, io.id, io.spends)
  }

  ghost predicate TxsExported(db: Db, account: nat, ts: seq<IOTx>) {
    Lists(TxIds(ts), db.txs, TxOf(account)) && forall i | 0 <= i < |ts| :: TxExported(db, ts[i])
  }

  ghost predicate TaddrsExported(db: Db, account: nat, ts: seq<IOTaddr>) {
    && Lists(TaddrIds(ts), db.taddrs, TaddrOf(account))
    && forall i | 0 <= i < |ts|  ::
         ts[i].id in db.taddrs && ts[i].cols == db.taddrs[ts[i].id].cols
         && ts[i].uncompressed == db.taddrs[ts[i].id].uncompressed
  }

  ghost predicate WitnessExported(db: Db, id: nat, io: IOWitness) {
    id in db.witnesses && io.height == db.witnesses[id].height && io.note == db.witnesses[id].note
    && io.data == db.witnesses[id].data
  }

  ghost predicate WitnessesListed(db: Db, account: nat, height: nat, ids: seq<nat>, ws: seq<IOWitness>) {
    && Lists(ids, db.witnesses, WitnessAt(account, height)) && |ids| == |ws|
    && forall i | 0 <= i < |ws| :: WitnessExported(db, ids[i], ws[i])
  }

  ghost predicate BlockExported(db: Db, account: nat, b: IOBlock) {
    && b.height in db.headers && b.header == db.headers[b.height]
    && exists ids :: WitnessesListed(db, account, b.height, ids, b.witnesses)
  }

  ghost predicate HasWitnessAt(db: Db, account: nat, height: nat) {
    exists w :: w in db.witnesses && db.witnesses[w].account == account && db.witnesses[w].height == height
  }

  /** One block for each height at which the account has a witness, and no other. */
  ghost predicate BlocksExported(db: Db, account: nat, bs: seq<IOBlock>) {
    && NoDup(BlockHeights(bs))
    && (forall w | w in db.witnesses && db.witnesses[w].account == account ::
         db.witnesses[w].height in BlockHeights(bs))
    && (forall i | 0 <= i < |bs| :: HasWitnessAt(db, account, bs[i].height) && BlockExported(db, account, bs[i]))
  }

  ghost predicate SyncHeightsExported(db: Db, account: nat, ss: seq<IOSync>) {
    && NoDup(SyncPools(ss))
    && (forall i | 0 <= i < |ss| ::
         (account, ss[i].pool) in db.syncHeights && db.syncHeights[(account, ss[i].pool)] == ss[i].height)
    && (forall k | k in db.syncHeights && k.0 == account :: k.1 in SyncPools(ss))
  }

  ghost predicate UserMemosExported(db: Db, account: nat, us: seq<IOUserMemo>) {
    && NoDup(UserMemoTxs(us))
    && (forall i | 0 <= i < |us| ::
         (account, us[i].idTx) in db.userMemos && db.userMemos[(account, us[i].idTx)] == us[i].memo)
    && (forall k | k in db.userMemos && k.0 == account :: k.1 in UserMemoTxs(us))
  }

  function KeysOf(t: Table<Keys>, account: nat): Option<Keys> {
    if account in t then Some(t[account]) else None
  }

  function FolderName(db: Db, folder: Option<nat>): string {
    if folder.Some? && folder.value in db.folders then db.folders[folder.value] else ""
  }

  ghost predicate SharedExported(db: Db, io: IOAccount) {
    && Lists(CategoryIds(io.categories), db.categories, AnyCategory())
    && (forall i | 0 <= i < |io.categories| ::
         io.categories[i].id in db.categories && io.categories[i].category == db.categories[io.categories[i].id])
    && Lists(AssetIds(io.assets), db.assets, AnyAsset())
    && (forall i | 0 <= i < |io.assets| ::
         io.assets[i].id in db.assets && io.assets[i].asset == db.assets[io.assets[i].id])
  }

  ghost predicate Exported(db: Db, account: nat, io: IOAccount) {
    && account in db.accounts && io.version == DB_VERSION
    && io.cols == db.accounts[account].cols && io.folder == FolderName(db, db.accounts[account].folder)
    && io.tkeys == KeysOf(db.tkeys, account) && io.skeys == KeysOf(db.skeys, account)
    && io.okeys == KeysOf(db.okeys, account)
    && SharedExported(db, io) && TaddrsExported(db, account, io.taddrs)
    && SyncHeightsExported(db, account, io.syncHeights)
    && TxsExported(db, account, io.txs) && UserMemosExported(db, account, io.userMemos)
    && BlocksExported(db, account, io.blocks)
  }

  // ---------------------------------------------------------------------
  // The export loops
  // ---------------------------------------------------------------------

  ghost predicate OneMemoEach(db: Db) {
    && (forall i, j | i in db.memos && j in db.memos && db.memos[i].note.Some?
    && db.memos[i].note == db.memos[j].note :: i == j)
    && (forall i, j | i in db.memos && j in db.memos && db.memos[i].output.Some?
    && db.memos[i].output == db.memos[j].output :: i == j)
  }

  lemma IntactHasOneMemoEach(db: Db)
    requires Intact(db)
    ensures OneMemoEach(db)
  {
    forall i, j | i in db.memos && j in db.memos && db.memos[i].output.Some? && db.memos[i].output == db.memos[j].output
      ensures i == j
    {
      assert MemoIntact(db, db.memos[i]) && MemoIntact(db, db.memos[j]);
      assert MemoKey(db.memos[i]) == MemoKey(db.memos[j]);
    }
  }

  method ExportNotes(db: Db, tx: nat) returns (ns: seq<IONote>)
    ensures OneMemoEach(db) ==> NotesExported(db, tx, ns)
  {
    var ids := Select(db.notes, NoteOfTx(tx));
    ns := [];
    for i := 0 to |ids|
      invariant OneMemoEach(db) ==> NoteIds(ns) == ids[..i] && forall k | 0 <= k < |ns| :: NoteExported(db, ns[k])
    {
      ghost var before := ns;
      var joined := JoinNote(db, ids[i]);
      ns := ns + joined;
      assert OneMemoEach(db) ==> NoteIds(ns) == NoteIds(before) + [ids[i]];
    }
    assert ids[..|ids|] == ids;
  }

  /** The rows of `notes LEFT JOIN memos` for one note: one per memo, or one without. */
  method JoinNote(db: Db, id: nat) returns (ns: seq<IONote>)
    requires id in db.notes
    ensures OneMemoEach(db) ==> |ns| == 1 && ns[0].id == id && NoteExported(db, ns[0])
  {
    var n := db.notes[id];
    var io := IONote(id, n.cols.(value := AsU64(n.cols.value)), n.taddress, n.asset, None, None, None);
    var memos := Select(db.memos, MemoOfNote(id));
    if OneMemoEach(db) {
      AtMostOne(memos, db.memos, MemoOfNote(id));
    }
    if |memos| == 0 {
      return [io];
    }
    assert memos[0] in db.memos && db.memos[memos[0]].note == Some(id);
    ns := [];
    for j := 0 to |memos|
      invariant |ns| == j
      invariant forall k | 0 <= k < j :: ns[k].id == id && NoteExported(db, ns[k])
    {
      var m := db.memos[memos[j]];
      ns := ns + [io.(vout := Some(m.vout), memoText := m.text, memoBytes := Some(m.bytes))];
    }
  }

  method ExportOutputs(db: Db, tx: nat) returns (os: seq<IOOutput>)
    ensures OneMemoEach(db) ==> OutputsExported(db, tx, os)
  {
    var ids := Select(db.outputs, OutputOfTx(tx));
    os := [];
    for i := 0 to |ids|
      invariant OneMemoEach(db) ==> OutputIds(os) == ids[..i] && forall k | 0 <= k < |os| :: OutputExported(db, os[k])
    {
      ghost var before := os;
      var joined := JoinOutput(db, ids[i]);
      os := os + joined;
      assert OneMemoEach(db) ==> OutputIds(os) == OutputIds(before) + [ids[i]];
    }
    assert ids[..|ids|] == ids;
  }

  method JoinOutput(db: Db, id: nat) returns (os: seq<IOOutput>)
    requires id in db.outputs
    ensures OneMemoEach(db) ==> |os| == 1 && os[0].id == id && OutputExported(db, os[0])
  {
    var o := db.outputs[id];
    var io := IOOutput(id, o.cols.(value := AsU64(o.cols.value)), None, None);
    var memos := Select(db.memos, MemoOfOutput(id));
    if OneMemoEach(db) {
      AtMostOne(memos, db.memos, MemoOfOutput(id));
    }
    if |memos| == 0 {
      return [io];
    }
    assert memos[0] in db.memos && db.memos[memos[0]].output == Some(id);
    os := [];
    for j := 0 to |memos|
      invariant |os| == j
      invariant forall k | 0 <= k < j :: os[k].id == id && OutputExported(db, os[k])
    {
      var m := db.memos[memos[j]];
      os := os + [io.(memoText := m.text, memoBytes := Some(m.bytes))];
    }
  }

  method ExportSpends(db: Db, tx: nat) returns (ss: seq<IOSpend>)
    ensures SpendsExported(db, tx, ss)
  {
    var ids := Select(db.spends, SpendOfTx(tx));
    ss := [];
    for i := 0 to |ids|
      invariant SpendIds(ss) == ids[..i] && forall k | 0 <= k < |ss| :: SpendExported(db, ss[k])
    {
      var s := db.spends[ids[i]];
      ghost var before := ss;
      ss := ss + [IOSpend(ids[i], s.height, s.pool, AsU64(s.value))];
      assert SpendIds(ss) == SpendIds(before) + [ids[i]];
    }
    assert ids[..|ids|] == ids;
  }

  /** The transaction rows first; then each is patched with its notes, outputs and spends. */
  method ExportTxs(db: Db, account: nat) returns (ts: seq<IOTx>)
    ensures OneMemoEach(db) ==> TxsExported(db, account, ts)
  {
    var ids := Select(db.txs, TxOf(account));
    ts := [];
    for i := 0 to |ids|
      invariant TxIds(ts) == ids[..i]
      invariant forall k | 0 <= k < i :: ts[k] == IOTx(ids[k], db.txs[ids[k]].cols, db.txs[ids[k]].category, [], [], [])
    {
      ghost var before := ts;
      ts := ts + [IOTx(ids[i], db.txs[ids[i]].cols, db.txs[ids[i]].category, [], [], [])];
      assert TxIds(ts) == TxIds(before) + [ids[i]];
    }
    assert ids[..|ids|] == ids;
    for i := 0 to |ts|
      invariant |ts| == |ids| && TxIds(ts) == ids
      invariant forall k | i <= k < |ts| ::
                  ts[k] == IOTx(ids[k], db.txs[ids[k]].cols, db.txs[ids[k]].category, [], [], [])
      invariant OneMemoEach(db) ==> forall k | 0 <= k < i :: TxExported(db, ts[k])
    {
      var notes := ExportNotes(db, ts[i].id);
      var outputs := ExportOutputs(db, ts[i].id);
      var spends := ExportSpends(db, ts[i].id);
      ghost var before := ts;
      ts := ts[i := ts[i].(notes := notes, outputs := outputs, spends := spends)];
      assert TxIds(ts) == TxIds(before);
    }
  }

  method ExportTaddrs(db: Db, account: nat) returns (ts: seq<IOTaddr>)
    ensures TaddrsExported(db, account, ts)
  {
    var ids := Select(db.taddrs, TaddrOf(account));
    ts := [];
    for i := 0 to |ids|
      invariant TaddrIds(ts) == ids[..i]
      invariant forall k | 0 <= k < |ts| ::
                  ts[k].cols == db.taddrs[ids[k]].cols && ts[k].uncompressed == db.taddrs[ids[k]].uncompressed
    {
      ghost var before := ts;
      ts := ts + [IOTaddr(ids[i], db.taddrs[ids[i]].cols, db.taddrs[ids[i]].uncompressed)];
      assert TaddrIds(ts) == TaddrIds(before) + [ids[i]];
    }
    assert ids[..|ids|] == ids;
  }

  method ExportShared(db: Db) returns (categories: seq<IOCategory>, assets: seq<IOAsset>)
    ensures Lists(CategoryIds(categories), db.categories, AnyCategory())
    ensures forall i | 0 <= i < |categories| ::
              categories[i].id in db.categories && categories[i].category == db.categories[categories[i].id]
    ensures Lists(AssetIds(assets), db.assets, AnyAsset())
    ensures forall i | 0 <= i < |assets| :: assets[i].id in db.assets && assets[i].asset == db.assets[assets[i].id]
  {
    var ids := Select(db.categories, AnyCategory());
    categories := seq(|ids|, i requires 0 <= i < |ids| => IOCategory(ids[i], db.categories[ids[i]]));
    assert CategoryIds(categories) == ids;
    ids := Select(db.assets, AnyAsset());
    assets := seq(|ids|, i requires 0 <= i < |ids| => IOAsset(ids[i], db.assets[ids[i]]));
    assert AssetIds(assets) == ids;
  }

  /** SELECT over a composite key, for one account. */
  method SelectSecond<V>(t: map<(nat, nat), V>, account: nat) returns (ids: seq<nat>)
    ensures NoDup(ids)
    ensures forall i | 0 <= i < |ids| :: (account, ids[i]) in t
    ensures forall k | k in t && k.0 == account :: k.1 in ids
  {
    var todo := set k | k in t && k.0 == account;
    ghost var all := todo;
    ids := [];
    while todo != {}
      invariant todo <= all && NoDup(ids)
      invariant forall i | 0 <= i < |ids| :: (account, ids[i]) in all && (account, ids[i]) !in todo
      invariant forall k | k in all :: k in todo || k.1 in ids
      decreases |todo|
    {
      var k :| k in todo;
      assert k.0 == account;
      todo := todo - {k};
      ids := ids + [k.1];
    }
  }

  method ExportSyncHeights(db: Db, account: nat) returns (ss: seq<IOSync>)
    ensures SyncHeightsExported(db, account, ss)
  {
    var ids := SelectSecond(db.syncHeights, account);
    ss := seq(|ids|, i requires 0 <= i < |ids| => IOSync(ids[i], db.syncHeights[(account, ids[i])]));
    assert SyncPools(ss) == ids;
  }

  method ExportUserMemos(db: Db, account: nat) returns (us: seq<IOUserMemo>)
    ensures UserMemosExported(db, account, us)
  {
    var ids := SelectSecond(db.userMemos, account);
    us := seq(|ids|, i requires 0 <= i < |ids| => IOUserMemo(ids[i], db.userMemos[(account, ids[i])]));
    assert UserMemoTxs(us) == ids;
  }

  /** SELECT DISTINCT height FROM witnesses. */
  method Checkpoints(db: Db, account: nat) returns (heights: seq<nat>)
    ensures NoDup(heights)
    ensures forall i | 0 <= i < |heights| :: HasWitnessAt(db, account, heights[i])
    ensures forall w | w in db.witnesses && db.witnesses[w].account == account :: db.witnesses[w].height in heights
  {
    var todo := set w | w in db.witnesses && db.witnesses[w].account == account :: db.witnesses[w].height;
    ghost var all := todo;
    heights := [];
    while todo != {}
      invariant todo <= all && NoDup(heights)
      invariant forall i | 0 <= i < |heights| ::
                  heights[i] in all && heights[i] !in todo && HasWitnessAt(db, account, heights[i])
      invariant forall h | h in all :: h in todo || h in heights
      decreases |todo|
    {
      var h :| h in todo;
      todo := todo - {h};
      heights := heights + [h];
    }
  }

  /** One block per checkpoint; a checkpoint without its header fails the export. */
  method ExportBlocks(db: Db, account: nat) returns (r: Option<seq<IOBlock>>)
    ensures r.Some? ==> BlocksExported(db, account, r.value)
    ensures r.Some? <==>
              forall w | w in db.witnesses && db.witnesses[w].account == account :: db.witnesses[w].height in db.headers
  {
    var heights := Checkpoints(db, account);
    var bs := [];
    for i := 0 to |heights|
      invariant BlockHeights(bs) == heights[..i]
      invariant forall k | 0 <= k < |bs| :: HasWitnessAt(db, account, bs[k].height) && BlockExported(db, account, bs[k])
      invariant forall k | 0 <= k < i :: heights[k] in db.headers
    {
      var h := heights[i];
      if h !in db.headers {
        return None;
      }
      var ids := Select(db.witnesses, WitnessAt(account, h));
      var ws := seq(|ids|, k requires 0 <= k < |ids| =>
        IOWitness(h, db.witnesses[ids[k]].note, db.witnesses[ids[k]].data));
      assert WitnessesListed(db, account, h, ids, ws);
      ghost var before := bs;
      bs := bs + [IOBlock(h, db.headers[h], ws)];
      assert BlockHeights(bs) == BlockHeights(before) + [h];
    }
    assert heights[..|heights|] == heights;
    return Some(bs);
  }

  /** The account is stored, and so is the header of each of its checkpoints. */
  ghost predicate Exportable(db: Db, account: nat) {
    && account in db.accounts
    && forall w | w in db.witnesses && db.witnesses[w].account == account :: db.witnesses[w].height in db.headers
  }

  method ExportAccount(db: Db, account: nat) returns (r: Option<IOAccount>)
    ensures r.Some? && OneMemoEach(db) ==> Exported(db, account, r.value)
    ensures r.Some? <==> Exportable(db, account)
  {
    if account !in db.accounts {
      return None;
    }
    hide TxsExported, TaddrsExported, SyncHeightsExported, UserMemosExported, BlocksExported, OneMemoEach;
    var a := db.accounts[account];
    var taddrs := ExportTaddrs(db, account);
    var syncHeights := ExportSyncHeights(db, account);
    var blocks := ExportBlocks(db, account);
    if blocks.None? {
      return None;
    }
    var categories, assets := ExportShared(db);
    var txs := ExportTxs(db, account);
    var userMemos := ExportUserMemos(db, account);
    return Some(IOAccount(DB_VERSION, a.cols, FolderName(db, a.folder),
      KeysOf(db.tkeys, account), KeysOf(db.skeys, account), KeysOf(db.okeys, account),
      taddrs, syncHeights, blocks.value, txs, categories, assets, userMemos));
  }
}
