/**
 The wallet's tables, their UNIQUE constraints, and referential integrity.
 */
module Schema {
  import opened Wrappers
  import opened Tables

  type Blob = seq<nat>

  datatype AccountCols = AccountCols(
    name: string, seed: Option<string>, passphrase: string, seedFingerprint: Option<Blob>,
    aindex: nat, dindex: nat, defDindex: nat, icon: Option<Blob>, birth: nat,
    useInternal: bool, hidden: bool, saved: bool, enabled: bool, internal: bool, hw: nat, canSign: bool)

  datatype Account = Account(cols: AccountCols, folder: Option<nat>, position: nat)

  datatype Category = Category(name: string, income: bool)

  datatype Asset = Asset(descHash: Blob, ik: Blob, base: Blob, finalized: bool, firstSeenHeight: nat)

  datatype Keys = Keys(xsk: Option<Blob>, xvk: Blob)

  datatype TaddrCols = TaddrCols(scope: nat, dindex: nat, sk: Option<Blob>, pk: Blob, address: string)

  datatype Taddr = Taddr(account: nat, cols: TaddrCols, uncompressed: bool)

  datatype TxCols = TxCols(txid: Blob, height: nat, time: nat, details: bool, tpe: nat, value: int, fee: nat,
          price: Option<real>)

  datatype Tx = Tx(account: nat, cols: TxCols, category: Option<nat>)

  datatype NoteCols = NoteCols(
    height: nat, pool: nat, scope: Option<nat>, nullifier: Blob, value: int, cmx: Option<Blob>, position: Option<nat>,
    diversifier: Option<Blob>, rcm: Option<Blob>, rho: Option<Blob>, locked: bool)

  datatype Note = Note(account: nat, tx: nat, cols: NoteCols, taddress: Option<nat>, asset: Option<nat>)

  datatype OutputCols = OutputCols(height: nat, pool: nat, value: int, address: string, vout: nat)

  datatype Output = Output(account: nat, tx: nat, cols: OutputCols)

  datatype Memo = Memo(account: nat, tx: nat, height: nat, pool: nat, vout: nat,
                       note: Option<nat>, output: Option<nat>, text: Option<string>, bytes: Blob)

  /** Keyed by the id of the note it spends. */
  datatype Spend = Spend(account: nat, tx: nat, height: nat, pool: nat, value: int)

  datatype Witness = Witness(account: nat, note: nat, height: nat, data: Blob)

  datatype Header = Header(hash: Blob, time: nat)

  datatype Db = Db(
    accounts: Table<Account>, folders: Table<string>, categories: Table<Category>, assets: Table<Asset>,
    tkeys: Table<Keys>, skeys: Table<Keys>, okeys: Table<Keys>,
    taddrs: Table<Taddr>, syncHeights: map<(nat, nat), nat>,
    txs: Table<Tx>, notes: Table<Note>, outputs: Table<Output>, memos: Table<Memo>, spends: Table<Spend>,
    witnesses: Table<Witness>, headers: Table<Header>, userMemos: map<(nat, nat), string>)

  // ---------------------------------------------------------------------
  // UNIQUE constraints
  // ---------------------------------------------------------------------

  function TaddrKey(r: Taddr): (nat, nat, nat) { (r.account, r.cols.scope, r.cols.dindex) }
  function TxKey(r: Tx): (nat, Blob) { (r.account, r.cols.txid) }
  function NoteKey(r: Note): (nat, Blob) { (r.account, r.cols.nullifier) }
  function OutputKey(r: Output): (nat, nat, nat) { (r.tx, r.cols.pool, r.cols.vout) }
  function MemoKey(r: Memo): (nat, nat, nat) { (r.tx, r.pool, r.vout) }
  function WitnessKey(r: Witness): (nat, nat) { (r.note, r.height) }
  function AssetKey(r: Asset): (Blob, Blob) { (r.descHash, r.ik) }
  function AssetBase(r: Asset): Blob { r.base }
  function CategoryKey(r: Category): string { r.name }

  /** What the schema itself enforces in every state. */
  ghost predicate Constraints(db: Db) {
    && Unique(db.categories, CategoryKey) && Unique(db.assets, AssetKey) && Unique(db.assets, AssetBase)
    && Unique(db.taddrs, TaddrKey) && Unique(db.txs, TxKey) && Unique(db.notes, NoteKey)
    && Unique(db.outputs, OutputKey) && Unique(db.memos, MemoKey) && Unique(db.witnesses, WitnessKey)
  }

  // ---------------------------------------------------------------------
  // Signed columns that travel as unsigned integers
  // ---------------------------------------------------------------------

  const TWO_63 := 0x8000_0000_0000_0000
  const TWO_64 := 0x1_0000_0000_0000_0000

  predicate IsI64(v: int) {
    -TWO_63 <= v < TWO_63
  }

  function AsU64(v: int): nat {
    v % TWO_64
  }

  function AsI64(v: int): int {
    if v < TWO_63 then v else v - TWO_64
  }

  lemma CastRoundTrip(v: int)
    requires IsI64(v)
    ensures AsI64(AsU64(v)) == v
  {
  }

  // ---------------------------------------------------------------------
  // Referential integrity
  // ---------------------------------------------------------------------

  /**
   Every row of the account-keyed tables belongs to a stored account, user memos apart; folders and
   categories are stored.
   */
  ghost predicate Owned(db: Db) {
    && (forall k | k in db.tkeys :: k in db.accounts)
    && (forall k | k in db.skeys :: k in db.accounts)
    && (forall k | k in db.okeys :: k in db.accounts)
    && (forall k | k in db.syncHeights :: k.0 in db.accounts)
    && (forall k | k in db.taddrs :: db.taddrs[k].account in db.accounts)
    && (forall k | k in db.txs :: db.txs[k].account in db.accounts)
    && (forall k | k in db.txs && db.txs[k].category.Some? :: db.txs[k].category.value in db.categories)
    && (forall k | k in db.accounts && db.accounts[k].folder.Some? :: db.accounts[k].folder.value in db.folders)
  }

  /** `r` stands in transaction `tx` of the same account, no earlier than it. */
  ghost predicate InTx(db: Db, account: nat, tx: nat, height: nat) {
    tx in db.txs && db.txs[tx].account == account && db.txs[tx].cols.height <= height
  }

  ghost predicate NoteIntact(db: Db, n: Note) {
    && InTx(db, n.account, n.tx, n.cols.height) && IsI64(n.cols.value)
    && (n.taddress.Some? ==> n.taddress.value in db.taddrs && db.taddrs[n.taddress.value].account == n.account)
    && (n.asset.Some? ==> n.asset.value in db.assets)
  }

  ghost predicate OutputIntact(db: Db, o: Output) {
    InTx(db, o.account, o.tx, o.cols.height) && IsI64(o.cols.value)
  }

  /** A memo hangs on exactly one note or output and repeats its place. */
  ghost predicate MemoIntact(db: Db, m: Memo) {
    match (m.note, m.output)
    case (Some(n), None) =>
      && n in db.notes && db.notes[n].account == m.account && db.notes[n].tx == m.tx
      && db.notes[n].cols.height == m.height && db.notes[n].cols.pool == m.pool
    case (None, Some(o)) =>
      && o in db.outputs && db.outputs[o].account == m.account && db.outputs[o].tx == m.tx
      && db.outputs[o].cols.height == m.height && db.outputs[o].cols.pool == m.pool && db.outputs[o].cols.vout == m.vout
    case _ => false
  }

  ghost predicate SpendIntact(db: Db, note: nat, s: Spend) {
    && note in db.notes && db.notes[note].account == s.account && db.notes[note].cols.height <= s.height
    && db.notes[note].cols.pool == s.pool && db.notes[note].cols.value == -s.value && IsI64(s.value)
    && InTx(db, s.account, s.tx, s.height)
  }

  ghost predicate WitnessIntact(db: Db, w: Witness) {
    && w.note in db.notes && db.notes[w.note].account == w.account && db.notes[w.note].cols.height <= w.height
    && w.height in db.headers
  }

  /** Every reference resolves, inside one account, and no note has two memos. */
  ghost predicate Intact(db: Db) {
    && Constraints(db) && Owned(db)
    && (forall k | k in db.notes :: NoteIntact(db, db.notes[k]))
    && (forall k | k in db.outputs :: OutputIntact(db, db.outputs[k]))
    && (forall k | k in db.memos :: MemoIntact(db, db.memos[k]))
    && (forall i, j | i in db.memos && j in db.memos && db.memos[i].note.Some?
    && db.memos[i].note == db.memos[j].note :: i == j)
    && (forall k | k in db.spends :: SpendIntact(db, k, db.spends[k]))
    && (forall k | k in db.witnesses :: WitnessIntact(db, db.witnesses[k]))
  }
}
