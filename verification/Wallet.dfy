/**
 The connection to the wallet database: the operations that change it as one
 transaction each.
 */
module Wallet {
  import opened Wrappers
  import opened Tables
  import opened Schema
  import opened Backup
  import opened BackupExport
  import opened BackupRoundTrip

  function Without<T>(t: Table<T>, gone: T -> bool): Table<T> {
    map k | k in t && !gone(t[k]) :: t[k]
  }

  /** Every account-keyed row goes, except user memos. */
  function Deleted(d: Db, account: nat): Db {
    d.(outputs := Without(d.outputs, OutputOf(account)),
       memos := Without(d.memos, MemoOf(account)),
       witnesses := Without(d.witnesses, WitnessOf(account)),
       notes := Without(d.notes, NoteOf(account)),
       spends := Without(d.spends, SpendOf(account)),
       txs := Without(d.txs, TxOf(account)),
       syncHeights := map k | k in d.syncHeights && k.0 != account :: d.syncHeights[k],
       tkeys := d.tkeys - {account}, skeys := d.skeys - {account}, okeys := d.okeys - {account},
       taddrs := Without(d.taddrs, TaddrOf(account)),
       accounts := d.accounts - {account})
  }

  function NoteAbove(account: nat,
          height: nat): Note -> bool { (r: Note) => r.cols.height > height && r.account == account }
  function SpendAbove(account: nat,
          height: nat): Spend -> bool { (r: Spend) => r.height > height && r.account == account }
  function TxAbove(account: nat, height: nat): Tx -> bool { (r: Tx) => r.cols.height > height && r.account == account }
  function WitnessAbove(account: nat,
          height: nat): Witness -> bool { (r: Witness) => r.height > height && r.account == account }
  function OutputAbove(account: nat,
          height: nat): Output -> bool { (r: Output) => r.cols.height > height && r.account == account }
  function MemoAbove(account: nat, height: nat): Memo -> bool { (r: Memo) => r.height > height && r.account == account }

  /** History above `height` goes; what stands at it stays. */
  function Trimmed(d: Db, account: nat, height: nat): Db {
    d.(notes := Without(d.notes, NoteAbove(account, height)),
       spends := Without(d.spends, SpendAbove(account, height)),
       txs := Without(d.txs, TxAbove(account, height)),
       witnesses := Without(d.witnesses, WitnessAbove(account, height)),
       outputs := Without(d.outputs, OutputAbove(account, height)),
       memos := Without(d.memos, MemoAbove(account, height)),
       syncHeights := map k | k in d.syncHeights :: if k.0 == account then height else d.syncHeights[k])
  }

  // ---------------------------------------------------------------------
  // Rewinds
  // ---------------------------------------------------------------------

  function CheckpointsBelow(d: Db, account: nat, height: nat): set<nat> {
    set w | w in d.witnesses && d.witnesses[w].account == account && d.witnesses[w].height < height ::
      d.witnesses[w].height
  }

  /** MAX of the account's checkpoints below the height; NULL without any. */
  function PrevCheckpoint(d: Db, account: nat, height: nat): Option<nat> {
    var below := CheckpointsBelow(d, account, height);
    if below == {} then None else Some(MaxOf(below))
  }

  /** Every pool restarts at the birthday, or at its activation if that is later. */
  function Restarted(syncHeights: map<(nat, nat), nat>, account: nat, birth: nat, activations: seq<nat>): map<(nat,
          nat), nat> {
    map k | k in syncHeights ::
      if k.0 == account && k.1 < |activations| then Max(birth, activations[k.1]) else syncHeights[k]
  }

  function Reset(d: Db, account: nat, activations: seq<nat>): Db
    requires account in d.accounts
  {
    var t := Trimmed(d, account, 0);
    t.(syncHeights := Restarted(t.syncHeights, account, d.accounts[account].cols.birth, activations))
  }

  /** The headers of all accounts above the height go. */
  function HeadersUpTo(d: Db, height: nat): Db {
    d.(headers := map h | h in d.headers && h <= height :: d.headers[h])
  }

  /** None when there is neither a checkpoint nor an account to read a birthday from. */
  function Rewound(d: Db, account: nat, height: nat, activations: seq<nat>): Option<Db> {
    match PrevCheckpoint(d, account, height)
    case Some(prev) => Some(HeadersUpTo(Trimmed(d, account, prev), height))
    case None => if account in d.accounts then Some(HeadersUpTo(Reset(d, account, activations), height)) else None
  }

  /** One account after the other, as a sync does on a reorganisation. */
  function AllRewound(d: Db, accounts: seq<nat>, height: nat, activations: seq<nat>): Option<Db> {
    if accounts == [] then Some(d)
    else
      match AllRewound(d, accounts[..|accounts| - 1], height, activations)
      case None => None
      case Some(d') => Rewound(d', accounts[|accounts| - 1], height, activations)
  }

  // ---------------------------------------------------------------------
  // What a deletion or a trim keeps
  // ---------------------------------------------------------------------

  /** A row of another account, or below the cut; a deletion cuts at 0. */
  predicate Below(account: nat, cut: nat, rowAccount: nat, height: nat) {
    rowAccount != account || height < cut
  }

  ghost predicate Kept<T(!new)>(t: Table<T>, t': Table<T>, keep: T -> bool) {
    && (forall k | k in t && keep(t[k]) :: k in t' && t'[k] == t[k])
    && (forall k | k in t' :: k in t && t'[k] == t[k] && keep(t[k]))
  }

  function TxBelow(account: nat, cut: nat): Tx -> bool { (r: Tx) => Below(account, cut, r.account, r.cols.height) }
  function NoteBelow(account: nat,
          cut: nat): Note -> bool { (r: Note) => Below(account, cut, r.account, r.cols.height) }
  function OutputBelow(account: nat,
          cut: nat): Output -> bool { (r: Output) => Below(account, cut, r.account, r.cols.height) }
  function MemoBelow(account: nat, cut: nat): Memo -> bool { (r: Memo) => Below(account, cut, r.account, r.height) }
  function SpendBelow(account: nat, cut: nat): Spend -> bool { (r: Spend) => Below(account, cut, r.account, r.height) }
  function WitnessBelow(account: nat,
          cut: nat): Witness -> bool { (r: Witness) => Below(account, cut, r.account, r.height) }
  function TaddrKept(account: nat, cut: nat): Taddr -> bool { (r: Taddr) => Below(account, cut, r.account, 0) }

  /** Exactly these rows are left, unchanged. */
  ghost predicate Pruned(db: Db, d': Db, account: nat, cut: nat) {
    && Kept(db.taddrs, d'.taddrs, TaddrKept(account, cut)) && Kept(db.txs, d'.txs, TxBelow(account, cut))
    && Kept(db.notes, d'.notes, NoteBelow(account, cut)) && Kept(db.outputs, d'.outputs, OutputBelow(account, cut))
    && Kept(db.memos, d'.memos, MemoBelow(account, cut)) && Kept(db.spends, d'.spends, SpendBelow(account, cut))
    && Kept(db.witnesses, d'.witnesses, WitnessBelow(account, cut))
    && d'.assets == db.assets && d'.headers == db.headers
  }

  lemma KeptWithout<T(!new)>(t: Table<T>, gone: T -> bool, keep: T -> bool)
    requires forall k | k in t :: keep(t[k]) == !gone(t[k])
    ensures Kept(t, Without(t, gone), keep)
  {
  }

  lemma TrimPrunes(db: Db, account: nat, height: nat)
    ensures Pruned(db, Trimmed(db, account, height), account, height + 1)
  {
    var cut := height + 1;
    assert Kept(db.taddrs, db.taddrs, TaddrKept(account, cut));
    hide Kept, Without;
    KeptWithout(db.txs, TxAbove(account, height), TxBelow(account, cut));
    KeptWithout(db.notes, NoteAbove(account, height), NoteBelow(account, cut));
    KeptWithout(db.outputs, OutputAbove(account, height), OutputBelow(account, cut));
    KeptWithout(db.memos, MemoAbove(account, height), MemoBelow(account, cut));
    KeptWithout(db.spends, SpendAbove(account, height), SpendBelow(account, cut));
    KeptWithout(db.witnesses, WitnessAbove(account, height), WitnessBelow(account, cut));
  }

  lemma DeletePrunes(db: Db, account: nat)
    ensures Pruned(db, Deleted(db, account), account, 0)
  {
    hide Kept, Without;
    KeptWithout(db.taddrs, TaddrOf(account), TaddrKept(account, 0));
    KeptWithout(db.txs, TxOf(account), TxBelow(account, 0));
    KeptWithout(db.notes, NoteOf(account), NoteBelow(account, 0));
    KeptWithout(db.outputs, OutputOf(account), OutputBelow(account, 0));
    KeptWithout(db.memos, MemoOf(account), MemoBelow(account, 0));
    KeptWithout(db.spends, SpendOf(account), SpendBelow(account, 0));
    KeptWithout(db.witnesses, WitnessOf(account), WitnessBelow(account, 0));
  }

  // ---------------------------------------------------------------------
  // Where a trimmed account resumes
  // ---------------------------------------------------------------------

  /** Every pool of the account stands at `height`; other accounts stay where they are, and no pool comes or goes. */
  ghost predicate SyncedTo(db: Db, d': Db, account: nat, height: nat) {
    && d'.syncHeights.Keys == db.syncHeights.Keys
    && (forall k | k in db.syncHeights && k.0 == account :: d'.syncHeights[k] == height)
    && (forall k | k in db.syncHeights && k.0 != account :: d'.syncHeights[k] == db.syncHeights[k])
  }

  /** All pools of the account are still to be scanned at `height`. */
  ghost predicate StillToScan(d: Db, account: nat, height: nat) {
    forall k | k in d.syncHeights && k.0 == account :: d.syncHeights[k] < height
  }

  ghost predicate GoneAreAhead<T(!new)>(t: Table<T>, t': Table<T>, place: T -> (nat, nat), d': Db) {
    forall k | k in t && k !in t' :: StillToScan(d', place(t[k]).0, place(t[k]).1)
  }

  function TxPlace(r: Tx): (nat, nat) { (r.account, r.cols.height) }
  function NotePlace(r: Note): (nat, nat) { (r.account, r.cols.height) }
  function OutputPlace(r: Output): (nat, nat) { (r.account, r.cols.height) }
  function MemoPlace(r: Memo): (nat, nat) { (r.account, r.height) }
  function SpendPlace(r: Spend): (nat, nat) { (r.account, r.height) }
  function WitnessPlace(r: Witness): (nat, nat) { (r.account, r.height) }

  /** Whatever is gone lies above the new sync heights of its account, so the next scan meets it again. */
  ghost predicate Rescans(db: Db, d': Db) {
    && GoneAreAhead(db.txs, d'.txs, TxPlace, d') && GoneAreAhead(db.notes, d'.notes, NotePlace, d')
    && GoneAreAhead(db.outputs, d'.outputs, OutputPlace, d') && GoneAreAhead(db.memos, d'.memos, MemoPlace, d')
    && GoneAreAhead(db.spends, d'.spends, SpendPlace, d')
    && GoneAreAhead(db.witnesses, d'.witnesses, WitnessPlace, d')
  }

  lemma GoneIsAhead<T(!new)>(t: Table<T>, t': Table<T>, place: T -> (nat, nat), keep: T -> bool, db: Db, d': Db,
          account: nat, height: nat)
    requires Kept(t, t', keep) && SyncedTo(db, d', account, height)
    requires forall k | k in t :: keep(t[k]) == Below(account, height + 1, place(t[k]).0, place(t[k]).1)
    ensures GoneAreAhead(t, t', place, d')
  {
  }

  lemma PrunedRescans(db: Db, d': Db, account: nat, height: nat)
    requires Pruned(db, d'.(headers := db.headers), account, height + 1) && SyncedTo(db, d', account, height)
    ensures Rescans(db, d')
  {
    hide Kept, SyncedTo, GoneAreAhead, Below;
    var cut := height + 1;
    GoneIsAhead(db.txs, d'.txs, TxPlace, TxBelow(account, cut), db, d', account, height);
    GoneIsAhead(db.notes, d'.notes, NotePlace, NoteBelow(account, cut), db, d', account, height);
    GoneIsAhead(db.outputs, d'.outputs, OutputPlace, OutputBelow(account, cut), db, d', account, height);
    GoneIsAhead(db.memos, d'.memos, MemoPlace, MemoBelow(account, cut), db, d', account, height);
    GoneIsAhead(db.spends, d'.spends, SpendPlace, SpendBelow(account, cut), db, d', account, height);
    GoneIsAhead(db.witnesses, d'.witnesses, WitnessPlace, WitnessBelow(account, cut), db, d', account, height);
  }

  lemma TrimResumes(db: Db, account: nat, height: nat)
    ensures var d' := Trimmed(db, account, height);
            SyncedTo(db, d', account, height) && Rescans(db, d') && d'.headers == db.headers
  {
    var d' := Trimmed(db, account, height);
    hide Without;
    assert SyncedTo(db, d', account, height);
    TrimPrunes(db, account, height);
    hide *;
    assert d'.headers == db.headers by { HeadersStay(db, account, height); }
    assert d'.(headers := db.headers) == d';
    PrunedRescans(db, d', account, height);
  }

  lemma HeadersStay(db: Db, account: nat, height: nat)
    ensures Trimmed(db, account, height).headers == db.headers
  {
  }

  /** Each pool stands at the later of birthday and activation; a pool without activation stands at 0. */
  ghost predicate Restarts(db: Db, d': Db, account: nat, activations: seq<nat>)
    requires account in db.accounts
  {
    var birth := db.accounts[account].cols.birth;
    && d'.syncHeights.Keys == db.syncHeights.Keys
    && (forall k | k in db.syncHeights && k.0 != account :: d'.syncHeights[k] == db.syncHeights[k])
    && (forall k | k in db.syncHeights && k.0 == account ::
          if k.1 < |activations|
          then birth <= d'.syncHeights[k] && activations[k.1] <= d'.syncHeights[k]
               && (d'.syncHeights[k] == birth || d'.syncHeights[k] == activations[k.1])
          else d'.syncHeights[k] == 0)
  }

  lemma ResetRestarts(db: Db, account: nat, activations: seq<nat>)
    requires account in db.accounts
    ensures var d' := Reset(db, account, activations);
            Restarts(db, d', account, activations) && Pruned(db, d', account, 1)
  {
    var t := Trimmed(db, account, 0);
    TrimResumes(db, account, 0);
    TrimPrunes(db, account, 0);
    hide Without, Pruned, Rescans, Trimmed;
    assert t.accounts == db.accounts by { AccountsStay(db, account, 0); }
    PrunedSameTables(db, t, Reset(db, account, activations), account, 1);
  }

  lemma AccountsStay(db: Db, account: nat, height: nat)
    ensures Trimmed(db, account, height).accounts == db.accounts
  {
  }

  lemma PrunedSameTables(db: Db, t: Db, d': Db, account: nat, cut: nat)
    requires Pruned(db, t, account, cut) && d' == t.(syncHeights := d'.syncHeights)
    ensures Pruned(db, d', account, cut)
  {
    hide Kept;
  }

  /** Every note of the account lies above its birthday and above the activation of its pool, or at 0. */
  ghost predicate NotesAfterStart(db: Db, account: nat, activations: seq<nat>)
    requires account in db.accounts
  {
    forall k | k in db.notes && db.notes[k].account == account && db.notes[k].cols.height > 0
               && (account, db.notes[k].cols.pool) in db.syncHeights && db.notes[k].cols.pool < |activations| ::
      db.notes[k].cols.height > db.accounts[account].cols.birth
      && db.notes[k].cols.height > activations[db.notes[k].cols.pool]
  }

  /** A note that is gone lies above the new sync height of its own pool. */
  ghost predicate NotesRescanned(db: Db, d': Db) {
    forall k | k in db.notes && k !in d'.notes && (db.notes[k].account, db.notes[k].cols.pool) in d'.syncHeights ::
      d'.syncHeights[(db.notes[k].account, db.notes[k].cols.pool)] < db.notes[k].cols.height
  }

  /** A reset scans everything it drops again if and only if the account has no notes from before its start. */
  lemma ResetRescansIff(db: Db, account: nat, activations: seq<nat>)
    requires account in db.accounts
    ensures NotesRescanned(db, Reset(db, account, activations)) <==> NotesAfterStart(db, account, activations)
  {
    var d', birth := Reset(db, account, activations), db.accounts[account].cols.birth;
    ResetRestarts(db, account, activations);
    assert Kept(db.notes, d'.notes, NoteBelow(account, 1));
    hide Reset;
    forall k | k in db.notes
      ensures k !in d'.notes <==> db.notes[k].account == account && db.notes[k].cols.height > 0
    {
      assert NoteBelow(account, 1)(db.notes[k]) <==> !(db.notes[k].account == account && db.notes[k].cols.height > 0);
    }
    if NotesRescanned(db, d') {
      forall k | k in db.notes && db.notes[k].account == account && db.notes[k].cols.height > 0
                 && (account, db.notes[k].cols.pool) in db.syncHeights && db.notes[k].cols.pool < |activations|
        ensures db.notes[k].cols.height > birth && db.notes[k].cols.height > activations[db.notes[k].cols.pool]
      {
        assert (account, db.notes[k].cols.pool) in d'.syncHeights;
      }
    }
    if NotesAfterStart(db, account, activations) {
      forall k | k in db.notes && k !in d'.notes && (db.notes[k].account, db.notes[k].cols.pool) in d'.syncHeights
        ensures d'.syncHeights[(db.notes[k].account, db.notes[k].cols.pool)] < db.notes[k].cols.height
      {
        assert (account, db.notes[k].cols.pool) in db.syncHeights;
      }
    }
  }

  /** `p` is the highest checkpoint of the account below `height`. */
  ghost predicate LastCheckpoint(db: Db, account: nat, height: nat, p: nat) {
    && p < height && HasWitnessAt(db, account, p)
    && forall w | w in db.witnesses && db.witnesses[w].account == account && db.witnesses[w].height < height ::
         db.witnesses[w].height <= p
  }

  /** Exactly the headers up to the height are left, unchanged. */
  ghost predicate HeadersCut(db: Db, d': Db, height: nat) {
    && (forall h :: h in d'.headers <==> h in db.headers && h <= height)
    && (forall h | h in d'.headers :: d'.headers[h] == db.headers[h])
  }

  /**
   What a rewind makes of a database. With a checkpoint below the height the account resumes at the
   last one, with what it had there; without any it starts over.
   */
  ghost predicate Resumes(db: Db, d': Db, account: nat, height: nat, activations: seq<nat>) {
    && HeadersCut(db, d', height)
    && if exists p: nat :: LastCheckpoint(db, account, height, p)
       then exists p: nat ::
              LastCheckpoint(db, account, height, p) && SyncedTo(db, d', account, p) && Rescans(db, d')
              && Pruned(db, d'.(headers := db.headers), account, p + 1)
       else account in db.accounts && Restarts(db, d', account, activations)
            && Pruned(db, d'.(headers := db.headers), account, 1)
  }

  /** A rewind fails exactly for an unknown account without a checkpoint below the height. */
  lemma RewindResumes(db: Db, account: nat, height: nat, activations: seq<nat>)
    ensures Rewound(db, account, height, activations).Some? <==>
            account in db.accounts || exists p: nat :: LastCheckpoint(db, account, height, p)
    ensures Rewound(db, account, height, activations).Some? ==>
              Resumes(db, Rewound(db, account, height, activations).value, account, height, activations)
  {
    CheckpointIsLast(db, account, height);
    RewoundParts(db, account, height, activations);
    hide *;
    match PrevCheckpoint(db, account, height) {
      case Some(p) =>
        RewoundTo(db, account, height, p);
        ResumesAt(db, HeadersUpTo(Trimmed(db, account, p), height), account, height, activations, p);
      case None =>
        if account in db.accounts {
          StartedOver(db, account, height, activations);
          ResumesOver(db, HeadersUpTo(Reset(db, account, activations), height), account, height, activations);
        }
    }
  }

  lemma RewoundParts(db: Db, account: nat, height: nat, activations: seq<nat>)
    ensures var prev := PrevCheckpoint(db, account, height);
            Rewound(db, account, height, activations) ==
              if prev.Some? then Some(HeadersUpTo(Trimmed(db, account, prev.value), height))
              else if account in db.accounts then Some(HeadersUpTo(Reset(db, account, activations), height)) else None
  {
    hide PrevCheckpoint, Trimmed, Reset, HeadersUpTo;
  }

  lemma ResumesAt(db: Db, d': Db, account: nat, height: nat, activations: seq<nat>, p: nat)
    requires HeadersCut(db, d', height) && LastCheckpoint(db, account, height, p)
    requires SyncedTo(db, d', account, p) && Rescans(db, d') && Pruned(db, d'.(headers := db.headers), account, p + 1)
    ensures Resumes(db, d', account, height, activations)
  {
    hide HeadersCut, LastCheckpoint, SyncedTo, Rescans, Pruned, Restarts;
  }

  lemma ResumesOver(db: Db, d': Db, account: nat, height: nat, activations: seq<nat>)
    requires HeadersCut(db, d', height) && account in db.accounts
    requires forall p: nat :: !LastCheckpoint(db, account, height, p)
    requires Restarts(db, d', account, activations) && Pruned(db, d'.(headers := db.headers), account, 1)
    ensures Resumes(db, d', account, height, activations)
  {
    hide HeadersCut, LastCheckpoint, SyncedTo, Rescans, Pruned, Restarts;
  }

  lemma CheckpointIsLast(db: Db, account: nat, height: nat)
    ensures PrevCheckpoint(db, account, height).Some? ==>
              LastCheckpoint(db, account, height, PrevCheckpoint(db, account, height).value)
    ensures PrevCheckpoint(db, account, height).None? ==> forall p: nat :: !LastCheckpoint(db, account, height, p)
  {
    assert forall w | w in db.witnesses && db.witnesses[w].account == account && db.witnesses[w].height < height ::
        db.witnesses[w].height in CheckpointsBelow(db, account, height);
  }

  lemma RewoundTo(db: Db, account: nat, height: nat, p: nat)
    ensures var d' := HeadersUpTo(Trimmed(db, account, p), height);
            HeadersCut(db, d', height) && SyncedTo(db, d', account, p) && Rescans(db, d')
            && Pruned(db, d'.(headers := db.headers), account, p + 1)
  {
    var t := Trimmed(db, account, p);
    TrimResumes(db, account, p);
    TrimPrunes(db, account, p);
    hide Trimmed, Pruned, Rescans;
    assert HeadersUpTo(t, height).(headers := db.headers) == t;
    PrunedRescans(db, HeadersUpTo(t, height), account, p);
  }

  lemma StartedOver(db: Db, account: nat, height: nat, activations: seq<nat>)
    requires account in db.accounts
    ensures var d' := HeadersUpTo(Reset(db, account, activations), height);
            HeadersCut(db, d', height) && Restarts(db, d', account, activations)
            && Pruned(db, d'.(headers := db.headers), account, 1)
  {
    var t := Reset(db, account, activations);
    ResetRestarts(db, account, activations);
    assert t.headers == db.headers;
    hide Reset, Pruned;
    assert HeadersUpTo(t, height).(headers := db.headers) == t;
  }

  /** A record that an export of some intact database gives. */
  ghost predicate IsBackup(io: IOAccount) {
    exists src, account :: Intact(src) && Exported(src, account, io)
  }

  lemma ImportOutcome(d: Db, io: IOAccount, ok: bool, d': Db, c: Ctx, rows: Rows)
    requires if ok then Imported(d, io, d', c, rows) else Refused(d, io, c)
    ensures Intact(d) && IsBackup(io) ==> (ok <==> CanRestore(d, io))
  {
    hide Intact, Exported, Imported, Refused, CanRestore;
    if Intact(d) && IsBackup(io) {
      var src, account :| Intact(src) && Exported(src, account, io);
      RestoreSucceedsIff(src, account, io, d);
    }
  }

  lemma {:induction false} FailsFrom(d: Db, accounts: seq<nat>, i: nat, height: nat, activations: seq<nat>)
    requires i <= |accounts| && AllRewound(d, accounts[..i], height, activations).None?
    ensures AllRewound(d, accounts, height, activations).None?
    decreases |accounts|
  {
    hide Rewound;
    if i < |accounts| {
      var front := accounts[..|accounts| - 1];
      assert front[..i] == accounts[..i];
      FailsFrom(d, front, i, height, activations);
    } else {
      assert accounts[..i] == accounts;
    }
  }

  class Connection {
    var db: Db

    constructor (d: Db)
      ensures db == d
    {
      db := d;
    }

    /** All or nothing: a refused import leaves the database as it was. */
    method ImportAccount(io: IOAccount) returns (ok: bool, c: Ctx, rows: Rows)
      requires Constraints(db)
      modifies this
      ensures ok ==> Imported(old(db), io, db, c, rows)
      ensures !ok ==> db == old(db) && Refused(db, io, c)
      ensures Intact(old(db)) && IsBackup(io) ==> (ok <==> CanRestore(old(db), io))
    {
      hide Intact, IsBackup, CanRestore;
      hide ImportedHistory, AccountRefused, HistoryRefused, CategoriesMerged, AssetsMerged, AssetsFit;
      hide NextId, IdMap, TaddrIds, AddTaddrs, AddSyncHeights, FolderChosen;
      rows := Before(db);
      var d;
      ok, d, c := ImportShared(db, io);
      if !ok {
        ImportOutcome(db, io, ok, d, c, rows);
        return;
      }
      ok, d, c := ImportOwned(db, d, io, c);
      if !ok {
        ImportOutcome(db, io, ok, d, c, rows);
        return;
      }
      ok, d, rows := ImportHistory(db, d, io, c);
      ImportOutcome(db, io, ok, d, c, rows);
      if !ok {
        return;
      }
      db := d;
    }

    method DeleteAccount(account: nat)
      modifies this
      ensures db == Deleted(old(db), account)
      ensures Pruned(old(db), db, account, 0) && db.userMemos == old(db).userMemos
    {
      DeletePrunes(db, account);
      hide Pruned;
      db := db.(outputs := Without(db.outputs, OutputOf(account)));
      db := db.(memos := Without(db.memos, MemoOf(account)));
      db := db.(witnesses := Without(db.witnesses, WitnessOf(account)));
      db := db.(notes := Without(db.notes, NoteOf(account)));
      db := db.(spends := Without(db.spends, SpendOf(account)));
      db := db.(txs := Without(db.txs, TxOf(account)));
      db := db.(syncHeights := map k | k in db.syncHeights && k.0 != account :: db.syncHeights[k]);
      db := db.(tkeys := db.tkeys - {account});
      db := db.(taddrs := Without(db.taddrs, TaddrOf(account)));
      db := db.(skeys := db.skeys - {account});
      db := db.(okeys := db.okeys - {account});
      db := db.(accounts := db.accounts - {account});
    }

    method TrimSyncData(account: nat, height: nat)
      modifies this
      ensures db == Trimmed(old(db), account, height)
      ensures Pruned(old(db), db, account, height + 1) && db.userMemos == old(db).userMemos
      ensures SyncedTo(old(db), db, account, height) && Rescans(old(db), db)
    {
      TrimPrunes(db, account, height);
      TrimResumes(db, account, height);
      hide Pruned, SyncedTo, Rescans;
      db := db.(notes := Without(db.notes, NoteAbove(account, height)));
      db := db.(spends := Without(db.spends, SpendAbove(account, height)));
      db := db.(txs := Without(db.txs, TxAbove(account, height)));
      db := db.(witnesses := Without(db.witnesses, WitnessAbove(account, height)));
      db := db.(outputs := Without(db.outputs, OutputAbove(account, height)));
      db := db.(memos := Without(db.memos, MemoAbove(account, height)));
      db := db.(syncHeights := map k | k in db.syncHeights :: if k.0 == account then height else db.syncHeights[k]);
    }

    method ResetSync(account: nat, activations: seq<nat>) returns (ok: bool)
      modifies this
      ensures ok <==> account in old(db).accounts
      ensures db == if ok then Reset(old(db), account, activations) else old(db)
      ensures ok ==> Restarts(old(db), db, account, activations) && Pruned(old(db), db, account, 1)
    {
      if account !in db.accounts {
        return false;
      }
      ResetRestarts(db, account, activations);
      hide Restarts, Pruned, SyncedTo, Rescans;
      var birth := db.accounts[account].cols.birth;
      TrimSyncData(account, 0);
      db := db.(syncHeights := Restarted(db.syncHeights, account, birth, activations));
      return true;
    }

    method RewindSync(account: nat, height: nat, activations: seq<nat>) returns (ok: bool)
      modifies this
      ensures ok <==> Rewound(old(db), account, height, activations).Some?
      ensures db == if ok then Rewound(old(db), account, height, activations).value else old(db)
      ensures ok ==> Resumes(old(db), db, account, height, activations)
    {
      RewindResumes(db, account, height, activations);
      hide Trimmed, Reset, Pruned, Resumes, Restarts, SyncedTo, Rescans, PrevCheckpoint;
      match PrevCheckpoint(db, account, height) {
        case Some(prev) => TrimSyncData(account, prev);
        case None =>
          ok := ResetSync(account, activations);
          if !ok {
            return;
          }
      }
      db := db.(headers := map h | h in db.headers && h <= height :: db.headers[h]);
      return true;
    }

    method RewindAccounts(accounts: seq<nat>, height: nat, activations: seq<nat>) returns (ok: bool)
      modifies this
      ensures ok <==> AllRewound(old(db), accounts, height, activations).Some?
      ensures ok ==> db == AllRewound(old(db), accounts, height, activations).value
    {
      hide Rewound;
      for i := 0 to |accounts|
        invariant AllRewound(old(db), accounts[..i], height, activations) == Some(db)
      {
        assert accounts[..i + 1][..i] == accounts[..i];
        var done := RewindSync(accounts[i], height, activations);
        if !done {
          FailsFrom(old(db), accounts, i + 1, height, activations);
          return false;
        }
      }
      assert accounts[..|accounts|] == accounts;
      return true;
    }
  }

  /** The rows all accounts share: categories and assets. */
  method ImportShared(d: Db, io: IOAccount) returns (ok: bool, d': Db, c: Ctx)
    requires Constraints(d)
    ensures ok ==> ImportedShared(d, io, d', c)
    ensures ok ==> d' == d.(categories := d'.categories, assets := d'.assets)
    ensures !ok ==> Refused(d, io, c)
  {
    hide CategoriesMerged, AssetsMerged, AssetsFit;
    d', c := d, Ctx(0, map[], map[], map[]);
    if io.version > DB_VERSION {
      return false, d', c;
    }
    var categories, categoryMap := MergeCategories(d.categories, io.categories);
    var merged, assets, newAssets := MergeAssets(d.assets, io.assets);
    if !merged {
      return false, d', c;
    }
    return true, d.(categories := categories, assets := assets), Ctx(0, categoryMap, newAssets, map[]);
  }

  /** The account row and the rows that hang on it alone. */
  method ImportOwned(d: Db, before: Db, io: IOAccount, c0: Ctx) returns (ok: bool, d': Db, c: Ctx)
    requires ImportedShared(d, io, before, c0) && before == d.(categories := before.categories, assets := before.assets)
    ensures ok ==> ImportedShared(d, io, d', c) && ImportedAccount(d, io, d', c)
    ensures ok ==>
              d' == d.(categories := d'.categories, assets := d'.assets, accounts := d'.accounts, folders := d'.folders,
                            tkeys := d'.tkeys, skeys := d'.skeys, okeys := d'.okeys, taddrs := d'.taddrs,
                                syncHeights := d'.syncHeights)
    ensures !ok ==> c.account == NextId(d.accounts) && AccountRefused(d, io, c.account)
  {
    hide NextId, IdMap, TaddrIds, AddTaddrs, AddSyncHeights, CategoriesMerged, AssetsMerged, AssetsFit, FolderChosen;
    var account := NextId(d.accounts);
    d', c := before, c0.(account := account);
    var folders, folder := ChooseFolder(d.folders, io.folder);
    var accounts := Shifted(d.accounts)[account := Account(RestoredCols(io), folder, 1)];
    var tkeys, skeys, okeys := AddKeys(d.tkeys, account, io.tkeys), AddKeys(d.skeys, account, io.skeys),
        AddKeys(d.okeys, account, io.okeys);
    if tkeys.None? || skeys.None? || okeys.None? {
      return false, d', c;
    }
    var taddrs, newTaddrs := ImportTaddrs(account, d.taddrs, io.taddrs);
    if taddrs.None? {
      return false, d', c;
    }
    var syncHeights := ImportSyncHeights(account, d.syncHeights, io.syncHeights);
    if syncHeights.None? {
      return false, d', c;
    }
    return true, before.(accounts := accounts, folders := folders, tkeys := tkeys.value, skeys := skeys.value,
               okeys := okeys.value,
                         taddrs := taddrs.value, syncHeights := syncHeights.value), c.(taddrs := newTaddrs);
  }

  /** Transactions with notes, outputs and memos; then spends, user memos and checkpoints. */
  method ImportHistory(d: Db, before: Db, io: IOAccount, c: Ctx) returns (ok: bool, d': Db, rows: Rows)
    requires before ==
               d.(categories := before.categories, assets := before.assets, accounts := before.accounts,
                   folders := before.folders,
                          tkeys := before.tkeys, skeys := before.skeys, okeys := before.okeys,
                              taddrs := before.taddrs, syncHeights := before.syncHeights)
    ensures ok ==> ImportedHistory(d, io, d', c, rows)
    ensures ok ==>
              d' ==
                before.(txs := d'.txs, notes := d'.notes, outputs := d'.outputs, memos := d'.memos, spends := d'.spends,
                                 userMemos := d'.userMemos, headers := d'.headers, witnesses := d'.witnesses)
    ensures !ok ==> HistoryRefused(d, io, c)
  {
    hide AddTxs, AddAllSpends, AddUserMemos, AddBlocks, AddHeaders;
    d', rows := before, Before(d);
    var imported := ImportTxs(c, rows, io.txs);
    if imported.None? {
      return false, d', rows;
    }
    rows := imported.value;
    var spends := ImportSpends(c, rows.newTxs, rows.newNotes, d.spends, io.txs);
    if spends.None? {
      return false, d', rows;
    }
    var userMemos := ImportUserMemos(c, rows.newTxs, d.userMemos, io.userMemos);
    if userMemos.None? {
      return false, d', rows;
    }
    var headers, witnesses := ImportBlocks(c, rows.newNotes, d.headers, d.witnesses, io.blocks);
    if witnesses.None? {
      return false, d', rows;
    }
    return true, before.(txs := rows.txs, notes := rows.notes, outputs := rows.outputs, memos := rows.memos,
               spends := spends.value,
                         userMemos := userMemos.value, headers := headers, witnesses := witnesses.value), rows;
  }
}
