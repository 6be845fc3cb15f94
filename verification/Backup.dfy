/**
 Backups: an account is flattened into one record and rebuilt under fresh row
 ids. References are carried across by hash maps from old ids to new ones.
 */
module Backup {
  import opened Wrappers
  import opened Tables
  import opened Schema

  const DB_VERSION := 10
  const CAN_SIGN_DB_VERSION := 10

  datatype IOTaddr = IOTaddr(id: nat, cols: TaddrCols, uncompressed: bool)
  datatype IOSync = IOSync(pool: nat, height: nat)
  datatype IOWitness = IOWitness(height: nat, note: nat, data: Blob)
  datatype IOBlock = IOBlock(height: nat, header: Header, witnesses: seq<IOWitness>)
  datatype IOCategory = IOCategory(id: nat, category: Category)
  datatype IOAsset = IOAsset(id: nat, asset: Asset)
  datatype IOUserMemo = IOUserMemo(idTx: nat, memo: string)

  /** The value column of `cols` is stored unsigned. */
  datatype IONote = IONote(id: nat, cols: NoteCols, taddress: Option<nat>, asset: Option<nat>,
                           vout: Option<nat>, memoText: Option<string>, memoBytes: Option<Blob>)
  datatype IOOutput = IOOutput(id: nat, cols: OutputCols, memoText: Option<string>, memoBytes: Option<Blob>)
  datatype IOSpend = IOSpend(idNote: nat, height: nat, pool: nat, value: nat)
  datatype IOTx = IOTx(id: nat, cols: TxCols, category: Option<nat>,
                       notes: seq<IONote>, spends: seq<IOSpend>, outputs: seq<IOOutput>)

  datatype IOAccount = IOAccount(
    version: nat, cols: AccountCols, folder: string,
    tkeys: Option<Keys>, skeys: Option<Keys>, okeys: Option<Keys>,
    taddrs: seq<IOTaddr>, syncHeights: seq<IOSync>, blocks: seq<IOBlock>, txs: seq<IOTx>,
    categories: seq<IOCategory>, assets: seq<IOAsset>, userMemos: seq<IOUserMemo>)

  /** What the rows of an imported account refer to: its id and three of the five id maps. */
  datatype Ctx = Ctx(account: nat, categories: map<nat, nat>, assets: map<nat, nat>, taddrs: map<nat, nat>)

  /** The tables the transaction pass writes, and the two id maps it fills. */
  datatype Rows = Rows(txs: Table<Tx>, notes: Table<Note>, outputs: Table<Output>, memos: Table<Memo>,
                       newTxs: map<nat, nat>, newNotes: map<nat, nat>)

  predicate Taken<T, K(==)>(t: Table<T>, key: T -> K, row: T) {
    exists k :: k in t && key(t[k]) == key(row)
  }

  // ---------------------------------------------------------------------
  // Rows built from the record
  // ---------------------------------------------------------------------

  function TaddrRow(account: nat, io: IOTaddr): Taddr {
    Taddr(account, io.cols, false)
  }

  function TxRow(c: Ctx, io: IOTx): Tx {
    Tx(c.account, io.cols, Remap(c.categories, io.category))
  }

  function NoteRow(c: Ctx, newTx: nat, io: IONote): Note {
    Note(c.account, newTx, io.cols.(value := AsI64(io.cols.value)), Remap(c.taddrs, io.taddress),
        Remap(c.assets, io.asset))
  }

  function NoteMemo(c: Ctx, newTx: nat, newNote: nat, io: IONote): Memo
    requires io.vout.Some? && io.memoBytes.Some?
  {
    Memo(c.account, newTx, io.cols.height, io.cols.pool, io.vout.value, Some(newNote), None, io.memoText,
        io.memoBytes.value)
  }

  function OutputRow(c: Ctx, newTx: nat, io: IOOutput): Output {
    Output(c.account, newTx, io.cols.(value := AsI64(io.cols.value)))
  }

  function OutputMemo(c: Ctx, newTx: nat, newOutput: nat, io: IOOutput): Memo
    requires io.memoBytes.Some?
  {
    Memo(c.account, newTx, io.cols.height, io.cols.pool, io.cols.vout, None, Some(newOutput), io.memoText,
        io.memoBytes.value)
  }

  // ---------------------------------------------------------------------
  // Single INSERTs; None is a violated constraint or a failed look-up
  // ---------------------------------------------------------------------

  function AddMemo(r: Rows, m: Memo): Option<Rows> {
    if Taken(r.memos, MemoKey, m) then None else Some(r.(memos := Append(r.memos, [m])))
  }

  function AddNote(c: Ctx, newTx: nat, r: Rows, n: IONote): Option<Rows> {
    var row := NoteRow(c, newTx, n);
    if Taken(r.notes, NoteKey, row) || (n.vout.Some? && n.memoBytes.None?) then None
    else
      var id := NextId(r.notes);
      var r' := r.(notes := Append(r.notes, [row]), newNotes := r.newNotes[n.id := id]);
      if n.vout.None? then Some(r') else AddMemo(r', NoteMemo(c, newTx, id, n))
  }

  function AddOutput(c: Ctx, newTx: nat, r: Rows, o: IOOutput): Option<Rows> {
    var row := OutputRow(c, newTx, o);
    if Taken(r.outputs, OutputKey, row) then None
    else
      var r' := r.(outputs := Append(r.outputs, [row]));
      if o.memoBytes.None? then Some(r') else AddMemo(r', OutputMemo(c, newTx, NextId(r.outputs), o))
  }

  function AddTxRow(c: Ctx, r: Rows, io: IOTx): Option<Rows> {
    if Taken(r.txs, TxKey, TxRow(c, io)) then None
    else Some(r.(txs := Append(r.txs, [TxRow(c, io)]), newTxs := r.newTxs[io.id := NextId(r.txs)]))
  }

  function AddNotes(c: Ctx, newTx: nat, r: Rows, ns: seq<IONote>): Option<Rows> {
    if ns == [] then Some(r)
    else
      match AddNotes(c, newTx, r, ns[..|ns| - 1])
      case None => None
      case Some(r') => AddNote(c, newTx, r', ns[|ns| - 1])
  }

  function AddOutputs(c: Ctx, newTx: nat, r: Rows, os: seq<IOOutput>): Option<Rows> {
    if os == [] then Some(r)
    else
      match AddOutputs(c, newTx, r, os[..|os| - 1])
      case None => None
      case Some(r') => AddOutput(c, newTx, r', os[|os| - 1])
  }

  function AddTx(c: Ctx, r: Rows, io: IOTx): Option<Rows> {
    match AddTxRow(c, r, io)
    case None => None
    case Some(r1) =>
      match AddNotes(c, NextId(r.txs), r1, io.notes)
      case None => None
      case Some(r2) => AddOutputs(c, NextId(r.txs), r2, io.outputs)
  }

  function AddTxs(c: Ctx, r: Rows, ios: seq<IOTx>): Option<Rows> {
    if ios == [] then Some(r)
    else
      match AddTxs(c, r, ios[..|ios| - 1])
      case None => None
      case Some(r') => AddTx(c, r', ios[|ios| - 1])
  }

  /** A spend names its note by the old id; the note must have been restored. */
  function AddSpend(c: Ctx, newTx: nat, newNotes: map<nat, nat>, t: Table<Spend>, s: IOSpend): Option<Table<Spend>> {
    if s.idNote !in newNotes || newNotes[s.idNote] in t then None
    else Some(t[newNotes[s.idNote] := Spend(c.account, newTx, s.height, s.pool, AsI64(s.value))])
  }

  function AddSpends(c: Ctx, newTx: nat, newNotes: map<nat, nat>, t: Table<Spend>,
          ss: seq<IOSpend>): Option<Table<Spend>> {
    if ss == [] then Some(t)
    else
      match AddSpends(c, newTx, newNotes, t, ss[..|ss| - 1])
      case None => None
      case Some(t') => AddSpend(c, newTx, newNotes, t', ss[|ss| - 1])
  }

  function AddAllSpends(c: Ctx, newTxs: map<nat, nat>, newNotes: map<nat, nat>, t: Table<Spend>,
          ios: seq<IOTx>): Option<Table<Spend>> {
    if ios == [] then Some(t)
    else
      var io := ios[|ios| - 1];
      match AddAllSpends(c, newTxs, newNotes, t, ios[..|ios| - 1])
      case None => None
      case Some(t') => if io.id in newTxs then AddSpends(c, newTxs[io.id], newNotes, t', io.spends) else None
  }

  function AddUserMemos(c: Ctx, newTxs: map<nat, nat>, t: map<(nat, nat), string>,
          us: seq<IOUserMemo>): Option<map<(nat, nat), string>> {
    if us == [] then Some(t)
    else
      var u := us[|us| - 1];
      match AddUserMemos(c, newTxs, t, us[..|us| - 1])
      case None => None
      case Some(t') =>
        if u.idTx !in newTxs then Some(t')
        else if (c.account, newTxs[u.idTx]) in t' then None
        else Some(t'[(c.account, newTxs[u.idTx]) := u.memo])
  }

  function AddWitness(c: Ctx, newNotes: map<nat, nat>, t: Table<Witness>, w: IOWitness): Option<Table<Witness>> {
    if w.note !in newNotes then None
    else
      var row := Witness(c.account, newNotes[w.note], w.height, w.data);
      if Taken(t, WitnessKey, row) then None else Some(Append(t, [row]))
  }

  function AddWitnesses(c: Ctx, newNotes: map<nat, nat>, t: Table<Witness>,
          ws: seq<IOWitness>): Option<Table<Witness>> {
    if ws == [] then Some(t)
    else
      match AddWitnesses(c, newNotes, t, ws[..|ws| - 1])
      case None => None
      case Some(t') => AddWitness(c, newNotes, t', ws[|ws| - 1])
  }

  function AddBlocks(c: Ctx, newNotes: map<nat, nat>, t: Table<Witness>, bs: seq<IOBlock>): Option<Table<Witness>> {
    if bs == [] then Some(t)
    else
      match AddBlocks(c, newNotes, t, bs[..|bs| - 1])
      case None => None
      case Some(t') => AddWitnesses(c, newNotes, t', bs[|bs| - 1].witnesses)
  }

  /** Headers are shared by all accounts: a stored one stays. */
  function AddHeaders(t: Table<Header>, bs: seq<IOBlock>): Table<Header> {
    if bs == [] then t
    else
      var t', b := AddHeaders(t, bs[..|bs| - 1]), bs[|bs| - 1];
      if b.height in t' then t' else t'[b.height := b.header]
  }

  function AddTaddrs(account: nat, t: Table<Taddr>, ios: seq<IOTaddr>): Option<Table<Taddr>> {
    if ios == [] then Some(t)
    else
      match AddTaddrs(account, t, ios[..|ios| - 1])
      case None => None
      case Some(t') =>
        var row := TaddrRow(account, ios[|ios| - 1]);
        if Taken(t', TaddrKey, row) then None else Some(Append(t', [row]))
  }

  function AddSyncHeights(account: nat, t: map<(nat, nat), nat>, ss: seq<IOSync>): Option<map<(nat, nat), nat>> {
    if ss == [] then Some(t)
    else
      var s := ss[|ss| - 1];
      match AddSyncHeights(account, t, ss[..|ss| - 1])
      case None => None
      case Some(t') => if (account, s.pool) in t' then None else Some(t'[(account, s.pool) := s.height])
  }

  function TaddrIds(ios: seq<IOTaddr>): seq<nat> { seq(|ios|, i requires 0 <= i < |ios| => ios[i].id) }

  // ---------------------------------------------------------------------
  // Categories and assets are shared by all accounts and merged
  // ---------------------------------------------------------------------

  function CategoryIds(ios: seq<IOCategory>): seq<nat> { seq(|ios|, i requires 0 <= i < |ios| => ios[i].id) }
  function AssetIds(ios: seq<IOAsset>): seq<nat> { seq(|ios|, i requires 0 <= i < |ios| => ios[i].id) }

  ghost predicate IsCategoryOf(r: Category, ios: seq<IOCategory>) {
    exists i :: 0 <= i < |ios| && ios[i].category == r
  }

  /** Rows beyond those of `t` are categories of the record, income flag included. */
  ghost predicate NewCategories(t: Table<Category>, ios: seq<IOCategory>, t': Table<Category>) {
    forall k | k in t' && k !in t :: IsCategoryOf(t'[k], ios)
  }

  /** Each category of the record is found by its name. */
  ghost predicate CategoryMap(ios: seq<IOCategory>, t: Table<Category>, m: map<nat, nat>) {
    && (forall k | k in m :: k in CategoryIds(ios) && m[k] in t)
    && (forall i | 0 <= i < |ios| :: ios[i].id in m)
    && (NoDup(CategoryIds(ios)) ==> forall i | 0 <= i < |ios| :: t[m[ios[i].id]].name == ios[i].category.name)
  }

  /** The stored rows stay as they are. */
  ghost predicate CategoriesMerged(t: Table<Category>, ios: seq<IOCategory>, t': Table<Category>, m: map<nat, nat>) {
    Extends(t, t') && NewCategories(t, ios, t') && CategoryMap(ios, t', m)
  }

  lemma NewCategoriesStep(t: Table<Category>, ios: seq<IOCategory>, i: nat, t1: Table<Category>, t2: Table<Category>)
    requires i < |ios| && NewCategories(t, ios[..i], t1) && Extends(t1, t2)
    requires forall k | k in t2 && k !in t1 :: t2[k] == ios[i].category
    ensures NewCategories(t, ios[..i + 1], t2)
  {
    assert ios[..i + 1][i] == ios[i];
    forall k | k in t2 && k !in t
      ensures IsCategoryOf(t2[k], ios[..i + 1])
    {
      if k in t1 {
        var j :| 0 <= j < i && ios[..i][j].category == t1[k];
        assert ios[..i + 1][j] == ios[..i][j];
      }
    }
  }

  lemma CategoryMapStep(ios: seq<IOCategory>, i: nat, t: Table<Category>, m: map<nat, nat>, id: nat,
          t': Table<Category>)
    requires i < |ios| && CategoryMap(ios[..i], t, m) && Extends(t, t')
    requires id in t' && t'[id].name == ios[i].category.name
    ensures CategoryMap(ios[..i + 1], t', m[ios[i].id := id])
  {
    var front, ids := CategoryIds(ios[..i]), CategoryIds(ios[..i + 1]);
    assert ids == front + [ios[i].id];
    if NoDup(ids) {
      forall j | 0 <= j < i
        ensures ios[j].id != ios[i].id && front[j] == ids[j]
      {
        assert ids[j] != ids[i];
      }
    }
  }

  lemma CategoryStep(t: Table<Category>, ios: seq<IOCategory>, i: nat, t1: Table<Category>, m: map<nat, nat>,
          id: nat, t2: Table<Category>)
    requires i < |ios| && CategoriesMerged(t, ios[..i], t1, m) && Extends(t1, t2)
    requires forall k | k in t2 && k !in t1 :: t2[k] == ios[i].category
    requires id in t2 && t2[id].name == ios[i].category.name
    ensures CategoriesMerged(t, ios[..i + 1], t2, m[ios[i].id := id])
  {
    CategoryMapStep(ios, i, t1, m, id, t2);
    NewCategoriesStep(t, ios, i, t1, t2);
  }

  method MergeCategories(t: Table<Category>, ios: seq<IOCategory>) returns (t': Table<Category>, m: map<nat, nat>)
    ensures CategoriesMerged(t, ios, t', m)
    ensures Unique(t, CategoryKey) ==> Unique(t', CategoryKey)
  {
    hide NextId, Append, CategoryIds;
    t', m := t, map[];
    for i := 0 to |ios|
      invariant CategoriesMerged(t, ios[..i], t', m)
      invariant Unique(t, CategoryKey) ==> Unique(t', CategoryKey)
    {
      if k :| k in t' && t'[k].name == ios[i].category.name {
        CategoryStep(t, ios, i, t', m, k, t');
        m := m[ios[i].id := k];
      } else {
        var ok, t'', id := InsertUnique(t', CategoryKey, ios[i].category);
        AppendOne(t', ios[i].category);
        CategoryStep(t, ios, i, t', m, id, t'');
        t', m := t'', m[ios[i].id := id];
      }
    }
    assert ios[..|ios|] == ios;
  }

  ghost predicate IsOneOf(a: Asset, ios: seq<IOAsset>) {
    exists i :: 0 <= i < |ios| && ios[i].asset == a
  }

  /** Rows beyond those of `t` are assets of the record. */
  ghost predicate NewFrom(t: Table<Asset>, ios: seq<IOAsset>, t': Table<Asset>) {
    forall k | k in t' && k !in t :: IsOneOf(t'[k], ios)
  }

  /** Each asset of the record is found by its description hash and issuer key. */
  ghost predicate AssetMap(ios: seq<IOAsset>, t: Table<Asset>, m: map<nat, nat>) {
    && (forall k | k in m :: k in AssetIds(ios) && m[k] in t)
    && (forall i | 0 <= i < |ios| :: ios[i].id in m)
    && (NoDup(AssetIds(ios)) ==> forall i | 0 <= i < |ios| :: AssetKey(t[m[ios[i].id]]) == AssetKey(ios[i].asset))
  }

  ghost predicate AssetsMerged(t: Table<Asset>, ios: seq<IOAsset>, t': Table<Asset>, m: map<nat, nat>) {
    Extends(t, t') && NewFrom(t, ios, t') && AssetMap(ios, t', m)
  }

  lemma AssetMapStep(ios: seq<IOAsset>, i: nat, t: Table<Asset>, m: map<nat, nat>, id: nat, t': Table<Asset>)
    requires i < |ios| && AssetMap(ios[..i], t, m) && Extends(t, t')
    requires id in t' && AssetKey(t'[id]) == AssetKey(ios[i].asset)
    ensures AssetMap(ios[..i + 1], t', m[ios[i].id := id])
  {
    var front, ids := AssetIds(ios[..i]), AssetIds(ios[..i + 1]);
    assert ids == front + [ios[i].id];
    if NoDup(ids) {
      forall j | 0 <= j < i
        ensures ios[j].id != ios[i].id && front[j] == ids[j]
      {
        assert ids[j] != ids[i];
      }
    }
  }

  lemma NewFromStep(t: Table<Asset>, ios: seq<IOAsset>, i: nat, t1: Table<Asset>, t2: Table<Asset>)
    requires i < |ios| && NewFrom(t, ios[..i], t1) && Extends(t1, t2)
    requires forall k | k in t2 && k !in t1 :: t2[k] == ios[i].asset
    ensures NewFrom(t, ios[..i + 1], t2)
  {
    assert ios[..i + 1][i] == ios[i];
    forall k | k in t2 && k !in t
      ensures IsOneOf(t2[k], ios[..i + 1])
    {
      if k in t1 {
        var j :| 0 <= j < i && ios[..i][j].asset == t1[k];
        assert ios[..i + 1][j] == ios[..i][j];
      }
    }
  }

  /** Stored already, or free to be stored: no other asset holds its base. */
  ghost predicate AssetFits(t: Table<Asset>, a: Asset) {
    Taken(t, AssetKey, a) || !Taken(t, AssetBase, a)
  }

  ghost predicate DistinctAssets(ios: seq<IOAsset>) {
    forall i, j | 0 <= i < |ios| && 0 <= j < |ios| && i != j ::
      AssetKey(ios[i].asset) != AssetKey(ios[j].asset) && ios[i].asset.base != ios[j].asset.base
  }

  lemma TakenExtends<T(!new), K>(t: Table<T>, t': Table<T>, key: T -> K, row: T)
    requires Extends(t, t')
    requires forall k | k in t' && k !in t :: key(t'[k]) != key(row)
    ensures Taken(t', key, row) <==> Taken(t, key, row)
  {
    if Taken(t, key, row) {
      var k :| k in t && key(t[k]) == key(row);
      assert k in t';
    }
  }

  /** Merging earlier assets of a record with distinct assets does not change whether a later one fits. */
  lemma FitsAfterMerge(t: Table<Asset>, ios: seq<IOAsset>, i: nat, t': Table<Asset>)
    requires i < |ios| && DistinctAssets(ios) && Extends(t, t') && NewFrom(t, ios[..i], t')
    ensures AssetFits(t', ios[i].asset) <==> AssetFits(t, ios[i].asset)
  {
    var a := ios[i].asset;
    forall k | k in t' && k !in t
      ensures AssetKey(t'[k]) != AssetKey(a) && AssetBase(t'[k]) != AssetBase(a)
    {
      var j :| 0 <= j < i && ios[..i][j].asset == t'[k];
      assert ios[j].asset == t'[k];
    }
    TakenExtends(t, t', AssetKey, a);
    TakenExtends(t, t', AssetBase, a);
  }

  /** INSERT OR IGNORE. */
  function Added(t: Table<Asset>, a: Asset): Table<Asset> {
    if Taken(t, AssetKey, a) || Taken(t, AssetBase, a) then t else t[NextId(t) := a]
  }

  function AddAssets(t: Table<Asset>, ios: seq<IOAsset>): Table<Asset> {
    if ios == [] then t else Added(AddAssets(t, ios[..|ios| - 1]), ios[|ios| - 1].asset)
  }

  /** Each asset of the record fits among the stored ones and those merged before it. */
  ghost predicate AssetsFit(t: Table<Asset>, ios: seq<IOAsset>) {
    forall i | 0 <= i < |ios| :: AssetFits(AddAssets(t, ios[..i]), ios[i].asset)
  }

  lemma {:induction false} AddAssetsExtends(t: Table<Asset>, ios: seq<IOAsset>)
    ensures Extends(t, AddAssets(t, ios)) && NewFrom(t, ios, AddAssets(t, ios))
  {
    if ios != [] {
      var front := ios[..|ios| - 1];
      AddAssetsExtends(t, front);
      NewFromStep(t, ios, |front|, AddAssets(t, front), AddAssets(t, ios));
      assert ios[..|front| + 1] == ios;
    }
  }

  /** For a record of distinct assets it is enough to look at the table before the import. */
  lemma DistinctAssetsFit(t: Table<Asset>, ios: seq<IOAsset>)
    requires DistinctAssets(ios)
    ensures AssetsFit(t, ios) <==> forall i | 0 <= i < |ios| :: AssetFits(t, ios[i].asset)
  {
    forall i | 0 <= i < |ios|
      ensures AssetFits(AddAssets(t, ios[..i]), ios[i].asset) <==> AssetFits(t, ios[i].asset)
    {
      AddAssetsExtends(t, ios[..i]);
      FitsAfterMerge(t, ios, i, AddAssets(t, ios[..i]));
    }
  }

  /** One INSERT OR IGNORE with its look-up. */
  method MergeAsset(t: Table<Asset>, a: Asset) returns (ok: bool, t': Table<Asset>, id: nat)
    ensures ok <==> AssetFits(t, a)
    ensures t' == Added(t, a)
    ensures Extends(t, t') && forall k | k in t' && k !in t :: t'[k] == a
    ensures Unique(t, AssetKey) && Unique(t, AssetBase) ==> Unique(t', AssetKey) && Unique(t', AssetBase)
    ensures ok ==> id in t' && AssetKey(t'[id]) == AssetKey(a)
  {
    t', id := t, 0;
    if !Taken(t, AssetKey, a) && !Taken(t, AssetBase, a) {
      t' := t[NextId(t) := a];
      assert t'[NextId(t)] == a;
    }
    if k :| k in t' && AssetKey(t'[k]) == AssetKey(a) {
      return true, t', k;
    }
    return false, t', 0;
  }

  method MergeAssets(t: Table<Asset>, ios: seq<IOAsset>) returns (ok: bool, t': Table<Asset>, m: map<nat, nat>)
    ensures ok ==> AssetsMerged(t, ios, t', m)
    ensures Unique(t, AssetKey) && Unique(t, AssetBase) ==> Unique(t', AssetKey) && Unique(t', AssetBase)
    ensures ok <==> AssetsFit(t, ios)
    ensures ok ==> t' == AddAssets(t, ios)
  {
    hide *;
    assert AssetsMerged(t, [], t, map[]) && AddAssets(t, []) == t by { MergeNoAssets(t); }
    t', m := t, map[];
    for i := 0 to |ios|
      invariant AssetsMerged(t, ios[..i], t', m)
      invariant Unique(t, AssetKey) && Unique(t, AssetBase) ==> Unique(t', AssetKey) && Unique(t', AssetBase)
      invariant t' == AddAssets(t, ios[..i])
      invariant forall j | 0 <= j < i :: AssetFits(AddAssets(t, ios[..j]), ios[j].asset)
    {
      var fits, t'', id := MergeAsset(t', ios[i].asset);
      AddAssetsStep(t, ios, i);
      if !fits {
        assert !AssetsFit(t, ios) by { AssetsFitAt(t, ios, i); }
        return false, t', m;
      }
      MergedStep(t, ios, i, t', m, id, t'');
      t', m := t'', m[ios[i].id := id];
    }
    assert ios[..|ios|] == ios;
    assert AssetsFit(t, ios) by { AssetsFitIs(t, ios); }
    return true, t', m;
  }

  lemma MergeNoAssets(t: Table<Asset>)
    ensures AssetsMerged(t, [], t, map[]) && AddAssets(t, []) == t
  {
  }

  lemma AddAssetsStep(t: Table<Asset>, ios: seq<IOAsset>, i: nat)
    requires i < |ios|
    ensures AddAssets(t, ios[..i + 1]) == Added(AddAssets(t, ios[..i]), ios[i].asset)
  {
    assert ios[..i + 1][..i] == ios[..i];
  }

  lemma AssetsFitAt(t: Table<Asset>, ios: seq<IOAsset>, i: nat)
    requires i < |ios|
    ensures AssetsFit(t, ios) ==> AssetFits(AddAssets(t, ios[..i]), ios[i].asset)
  {
    hide AddAssets, AssetFits;
  }

  lemma AssetsFitIs(t: Table<Asset>, ios: seq<IOAsset>)
    requires forall j | 0 <= j < |ios| :: AssetFits(AddAssets(t, ios[..j]), ios[j].asset)
    ensures AssetsFit(t, ios)
  {
    hide AddAssets, AssetFits;
  }

  lemma MergedStep(t: Table<Asset>, ios: seq<IOAsset>, i: nat, t1: Table<Asset>, m: map<nat, nat>, id: nat,
          t2: Table<Asset>)
    requires i < |ios| && AssetsMerged(t, ios[..i], t1, m) && Extends(t1, t2)
    requires forall k | k in t2 && k !in t1 :: t2[k] == ios[i].asset
    requires id in t2 && AssetKey(t2[id]) == AssetKey(ios[i].asset)
    ensures AssetsMerged(t, ios[..i + 1], t2, m[ios[i].id := id])
  {
    AssetMapStep(ios, i, t1, m, id, t2);
    NewFromStep(t, ios, i, t1, t2);
  }

  // ---------------------------------------------------------------------
  // What an import makes of a database
  // ---------------------------------------------------------------------

  /** Every account moves down by one position. */
  function Shifted(t: Table<Account>): Table<Account> {
    map k | k in t :: t[k].(position := t[k].position + 1)
  }

  /** Backups older than the signing flag derive it from the fingerprint. */
  function RestoredCols(io: IOAccount): AccountCols {
    io.cols.(canSign := io.cols.canSign || (io.version < CAN_SIGN_DB_VERSION && io.cols.seedFingerprint.Some?))
  }

  function AddKeys(t: Table<Keys>, account: nat, keys: Option<Keys>): Option<Table<Keys>> {
    if keys.None? then Some(t) else if account in t then None else Some(t[account := keys.value])
  }

  /** A folder row is always added; the account is put in some folder of that name. */
  ghost predicate FolderChosen(t: Table<string>, name: string, t': Table<string>, folder: Option<nat>) {
    if name == "" then t' == t && folder == None
    else t' == Append(t, [name]) && folder.Some? && folder.value in t' && t'[folder.value] == name
  }

  function Before(d: Db): Rows {
    Rows(d.txs, d.notes, d.outputs, d.memos, map[], map[])
  }

  ghost predicate ImportedShared(d: Db, io: IOAccount, d': Db, c: Ctx) {
    && io.version <= DB_VERSION
    && CategoriesMerged(d.categories, io.categories, d'.categories, c.categories) && Unique(d'.categories, CategoryKey)
    && AssetsMerged(d.assets, io.assets, d'.assets, c.assets) && Unique(d'.assets, AssetKey)
    && Unique(d'.assets, AssetBase)
    && AssetsFit(d.assets, io.assets)
  }

  ghost predicate ImportedAccount(d: Db, io: IOAccount, d': Db, c: Ctx) {
    && c.account == NextId(d.accounts) && c.taddrs == IdMap(TaddrIds(io.taddrs), NextId(d.taddrs))
    && c.account in d'.accounts
    && FolderChosen(d.folders, io.folder, d'.folders, d'.accounts[c.account].folder)
    && d'.accounts == Shifted(d.accounts)[c.account := Account(RestoredCols(io), d'.accounts[c.account].folder, 1)]
    && Some(d'.tkeys) == AddKeys(d.tkeys, c.account, io.tkeys)
    && Some(d'.skeys) == AddKeys(d.skeys, c.account, io.skeys)
    && Some(d'.okeys) == AddKeys(d.okeys, c.account, io.okeys)
    && Some(d'.taddrs) == AddTaddrs(c.account, d.taddrs, io.taddrs)
    && Some(d'.syncHeights) == AddSyncHeights(c.account, d.syncHeights, io.syncHeights)
  }

  ghost predicate ImportedHistory(d: Db, io: IOAccount, d': Db, c: Ctx, r: Rows) {
    && AddTxs(c, Before(d), io.txs) == Some(r)
    && d'.txs == r.txs && d'.notes == r.notes && d'.outputs == r.outputs && d'.memos == r.memos
    && Some(d'.spends) == AddAllSpends(c, r.newTxs, r.newNotes, d.spends, io.txs)
    && Some(d'.userMemos) == AddUserMemos(c, r.newTxs, d.userMemos, io.userMemos)
    && d'.headers == AddHeaders(d.headers, io.blocks)
    && Some(d'.witnesses) == AddBlocks(c, r.newNotes, d.witnesses, io.blocks)
  }

  ghost predicate Imported(d: Db, io: IOAccount, d': Db, c: Ctx, r: Rows) {
    ImportedShared(d, io, d', c) && ImportedAccount(d, io, d', c) && ImportedHistory(d, io, d', c, r)
  }

  /** Why an import can fail: nothing else stops it. */
  ghost predicate Refused(d: Db, io: IOAccount, c: Ctx) {
    || io.version > DB_VERSION
    || !AssetsFit(d.assets, io.assets)
    || (c.account == NextId(d.accounts)
        && (AccountRefused(d, io, c.account)
            || (c.taddrs == IdMap(TaddrIds(io.taddrs), NextId(d.taddrs)) && HistoryRefused(d, io, c))))
  }

  ghost predicate AccountRefused(d: Db, io: IOAccount, account: nat) {
    || AddKeys(d.tkeys, account, io.tkeys).None? || AddKeys(d.skeys, account, io.skeys).None?
    || AddKeys(d.okeys, account, io.okeys).None? || AddTaddrs(account, d.taddrs, io.taddrs).None?
    || AddSyncHeights(account, d.syncHeights, io.syncHeights).None?
  }

  ghost predicate HistoryRefused(d: Db, io: IOAccount, c: Ctx) {
    match AddTxs(c, Before(d), io.txs)
    case None => true
    case Some(r) =>
      || AddAllSpends(c, r.newTxs, r.newNotes, d.spends, io.txs).None?
      || AddUserMemos(c, r.newTxs, d.userMemos, io.userMemos).None?
      || AddBlocks(c, r.newNotes, d.witnesses, io.blocks).None?
  }

  // ---------------------------------------------------------------------
  // The loops of the import. A refused INSERT rolls everything back: the
  // loops carry it as None and write nothing more.
  // ---------------------------------------------------------------------

  method ImportTaddrs(account: nat, t: Table<Taddr>, ios: seq<IOTaddr>)
    returns (r: Option<Table<Taddr>>, newTaddrs: map<nat, nat>)
    ensures r == AddTaddrs(account, t, ios)
    ensures r.Some? ==> newTaddrs == IdMap(TaddrIds(ios), NextId(t))
  {
    hide Append, NextId, IdMap, AddTaddrs, TaddrIds, TaddrRow;
    AddNoTaddrs(account, t);
    r, newTaddrs := Some(t), map[];
    IdMapEmpty(NextId(t));
    for i := 0 to |ios|
      invariant r == AddTaddrs(account, t, ios[..i])
      invariant r.Some? ==> NextId(r.value) == NextId(t) + i && newTaddrs == IdMap(TaddrIds(ios[..i]), NextId(t))
    {
      AddTaddrsStep(account, t, ios, i);
      if r.Some? {
        var row := TaddrRow(account, ios[i]);
        if Taken(r.value, TaddrKey, row) {
          r := None;
        } else {
          newTaddrs := newTaddrs[ios[i].id := NextId(r.value)];
          NextIdAppend(r.value, [row]);
          r := Some(Append(r.value, [row]));
          IdMapSnoc(TaddrIds(ios[..i]), NextId(t), ios[i].id);
        }
      }
    }
    assert ios[..|ios|] == ios;
  }

  lemma AddNoTaddrs(account: nat, t: Table<Taddr>)
    ensures AddTaddrs(account, t, []) == Some(t) && TaddrIds([]) == []
  {
  }

  lemma AddTaddrsStep(account: nat, t: Table<Taddr>, ios: seq<IOTaddr>, i: nat)
    requires i < |ios|
    ensures AddTaddrs(account, t, ios[..i + 1]) ==
            match AddTaddrs(account, t, ios[..i])
            case None => None
            case Some(t') => if Taken(t', TaddrKey, TaddrRow(account, ios[i])) then None
              else Some(Append(t', [TaddrRow(account, ios[i])]))
    ensures TaddrIds(ios[..i + 1]) == TaddrIds(ios[..i]) + [ios[i].id] && |TaddrIds(ios[..i])| == i
  {
    hide Append, Taken;
    assert ios[..i + 1][..i] == ios[..i];
  }

  lemma IdMapEmpty(first: nat)
    ensures IdMap([], first) == map[]
  {
  }

  method ImportSyncHeights(account: nat, t: map<(nat, nat), nat>, ss: seq<IOSync>)
    returns (r: Option<map<(nat, nat), nat>>)
    ensures r == AddSyncHeights(account, t, ss)
  {
    r := Some(t);
    for i := 0 to |ss|
      invariant r == AddSyncHeights(account, t, ss[..i])
    {
      assert ss[..i + 1][..i] == ss[..i];
      if r.Some? {
        r := if (account, ss[i].pool) in r.value then None else Some(r.value[(account, ss[i].pool) := ss[i].height]);
      }
    }
    assert ss[..|ss|] == ss;
  }

  /** The first pass: each transaction row, then its notes with their memos, then its outputs with theirs. */
  method ImportTxs(c: Ctx, before: Rows, ios: seq<IOTx>) returns (r: Option<Rows>)
    ensures r == AddTxs(c, before, ios)
  {
    r := Some(before);
    for i := 0 to |ios|
      invariant r == AddTxs(c, before, ios[..i])
    {
      assert ios[..i + 1][..i] == ios[..i];
      if r.Some? {
        r := ImportTx(c, r.value, ios[i]);
      }
    }
    assert ios[..|ios|] == ios;
  }

  method ImportTx(c: Ctx, before: Rows, io: IOTx) returns (r: Option<Rows>)
    ensures r == AddTx(c, before, io)
  {
    hide AddNote, AddOutput, NextId;
    r := AddTxRow(c, before, io);
    if r.None? {
      return;
    }
    var newTx := NextId(before.txs);
    ghost var r1 := r.value;
    for j := 0 to |io.notes|
      invariant r == AddNotes(c, newTx, r1, io.notes[..j])
    {
      assert io.notes[..j + 1][..j] == io.notes[..j];
      if r.Some? {
        r := AddNote(c, newTx, r.value, io.notes[j]);
      }
    }
    assert io.notes[..|io.notes|] == io.notes;
    if r.None? {
      return;
    }
    ghost var r2 := r.value;
    for j := 0 to |io.outputs|
      invariant r == AddOutputs(c, newTx, r2, io.outputs[..j])
    {
      assert io.outputs[..j + 1][..j] == io.outputs[..j];
      if r.Some? {
        r := AddOutput(c, newTx, r.value, io.outputs[j]);
      }
    }
    assert io.outputs[..|io.outputs|] == io.outputs;
  }

  /** The second pass, once every note has its new id: a spend may name a note of a later transaction. */
  method ImportSpends(c: Ctx, newTxs: map<nat, nat>, newNotes: map<nat, nat>, t: Table<Spend>, ios: seq<IOTx>)
    returns (r: Option<Table<Spend>>)
    ensures r == AddAllSpends(c, newTxs, newNotes, t, ios)
  {
    r := Some(t);
    for i := 0 to |ios|
      invariant r == AddAllSpends(c, newTxs, newNotes, t, ios[..i])
    {
      assert ios[..i + 1][..i] == ios[..i];
      if r.Some? && ios[i].id in newTxs {
        var newTx, spends := newTxs[ios[i].id], ios[i].spends;
        ghost var t' := r.value;
        for j := 0 to |spends|
          invariant r == AddSpends(c, newTx, newNotes, t', spends[..j])
        {
          assert spends[..j + 1][..j] == spends[..j];
          if r.Some? {
            r := AddSpend(c, newTx, newNotes, r.value, spends[j]);
          }
        }
        assert spends[..|spends|] == spends;
      } else {
        r := None;
      }
    }
    assert ios[..|ios|] == ios;
  }

  method ImportUserMemos(c: Ctx, newTxs: map<nat, nat>, t: map<(nat, nat), string>, us: seq<IOUserMemo>)
    returns (r: Option<map<(nat, nat), string>>)
    ensures r == AddUserMemos(c, newTxs, t, us)
  {
    r := Some(t);
    for i := 0 to |us|
      invariant r == AddUserMemos(c, newTxs, t, us[..i])
    {
      assert us[..i + 1][..i] == us[..i];
      if r.Some? && us[i].idTx in newTxs {
        var key := (c.account, newTxs[us[i].idTx]);
        r := if key in r.value then None else Some(r.value[key := us[i].memo]);
      }
    }
    assert us[..|us|] == us;
  }

  method ImportBlocks(c: Ctx, newNotes: map<nat, nat>, headers: Table<Header>, t: Table<Witness>, bs: seq<IOBlock>)
    returns (headers': Table<Header>, r: Option<Table<Witness>>)
    ensures headers' == AddHeaders(headers, bs) && r == AddBlocks(c, newNotes, t, bs)
  {
    hide AddWitness;
    headers', r := headers, Some(t);
    for i := 0 to |bs|
      invariant headers' == AddHeaders(headers, bs[..i]) && r == AddBlocks(c, newNotes, t, bs[..i])
    {
      assert bs[..i + 1][..i] == bs[..i];
      if bs[i].height !in headers' {
        headers' := headers'[bs[i].height := bs[i].header];
      }
      var ws := bs[i].witnesses;
      if r.Some? {
        ghost var t' := r.value;
        for j := 0 to |ws|
          invariant r == AddWitnesses(c, newNotes, t', ws[..j])
        {
          assert ws[..j + 1][..j] == ws[..j];
          if r.Some? {
            r := AddWitness(c, newNotes, r.value, ws[j]);
          }
        }
        assert ws[..|ws|] == ws;
      }
    }
    assert bs[..|bs|] == bs;
  }

  method ChooseFolder(t: Table<string>, name: string) returns (t': Table<string>, folder: Option<nat>)
    ensures FolderChosen(t, name, t', folder)
  {
    if name == "" {
      return t, None;
    }
    t' := Append(t, [name]);
    assert t'[NextId(t) + 0] == name;
    var k :| k in t' && t'[k] == name;
    folder := Some(k);
  }
}
