/**
 Rewinds share the headers of all accounts: when they keep the database intact,
 and referential integrity over whole runs.
 */
module WalletRuns {
  import opened Wrappers
  import opened Tables
  import opened Schema
  import opened Backup
  import opened BackupExport
  import opened BackupFold
  import opened BackupRecord
  import opened BackupRoundTrip
  import opened BackupRuns
  import opened Wallet

  // ---------------------------------------------------------------------
  // Integrity without and with headers
  // ---------------------------------------------------------------------

  /** Intact but for missing headers. */
  ghost predicate Linked(d: Db) {
    exists headers: Table<Header> :: Intact(d.(headers := headers))
  }

  ghost predicate Headed(d: Db) {
    forall w | w in d.witnesses :: d.witnesses[w].height in d.headers
  }

  /** Everything but the headers of checkpoints is independent of the header table. */
  lemma OnlyHeaders(d: Db, headers: Table<Header>)
    requires Intact(d.(headers := headers)) && Headed(d)
    ensures Intact(d)
  {
    var e := d.(headers := headers);
    assert Constraints(d) && Owned(d);
    forall k | k in d.notes ensures NoteIntact(d, d.notes[k]) { assert NoteIntact(e, e.notes[k]); }
    forall k | k in d.outputs ensures OutputIntact(d, d.outputs[k]) { assert OutputIntact(e, e.outputs[k]); }
    forall k | k in d.memos ensures MemoIntact(d, d.memos[k]) { assert MemoIntact(e, e.memos[k]); }
    forall k | k in d.spends ensures SpendIntact(d, k, d.spends[k]) { assert SpendIntact(e, k, e.spends[k]); }
    forall k | k in d.witnesses ensures WitnessIntact(d, d.witnesses[k]) { assert WitnessIntact(e, e.witnesses[k]); }
  }

  lemma IntactIffLinkedAndHeaded(d: Db)
    ensures Intact(d) <==> Linked(d) && Headed(d)
  {
    if Intact(d) {
      WitnessPlaces(d);
      assert d.(headers := d.headers) == d;
      hide Intact;
    }
    if Linked(d) && Headed(d) {
      var headers :| Intact(d.(headers := headers));
      hide Intact;
      OnlyHeaders(d, headers);
    }
  }

  // ---------------------------------------------------------------------
  // Rewinds
  // ---------------------------------------------------------------------

  lemma RestartKeepsIntact(d: Db, syncHeights: map<(nat, nat), nat>)
    requires Intact(d) && syncHeights.Keys == d.syncHeights.Keys
    ensures Intact(d.(syncHeights := syncHeights))
  {
    var e := d.(syncHeights := syncHeights);
    assert Constraints(e) && Owned(e);
    forall k | k in e.notes ensures NoteIntact(e, e.notes[k]) { assert NoteIntact(d, d.notes[k]); }
    forall k | k in e.outputs ensures OutputIntact(e, e.outputs[k]) { assert OutputIntact(d, d.outputs[k]); }
    forall k | k in e.memos ensures MemoIntact(e, e.memos[k]) { assert MemoIntact(d, d.memos[k]); }
    forall k | k in e.spends ensures SpendIntact(e, k, e.spends[k]) { assert SpendIntact(d, k, d.spends[k]); }
    forall k | k in e.witnesses ensures WitnessIntact(e, e.witnesses[k]) { assert WitnessIntact(d, d.witnesses[k]); }
  }

  lemma TrimLinked(d: Db, account: nat, height: nat)
    requires Linked(d)
    ensures Linked(Trimmed(d, account, height))
  {
    var headers :| Intact(d.(headers := headers));
    assert Trimmed(d.(headers := headers), account, height) == Trimmed(d, account, height).(headers := headers);
    hide Intact, Trimmed;
    TrimKeepsIntact(d.(headers := headers), account, height);
  }

  lemma RestartLinked(d: Db, syncHeights: map<(nat, nat), nat>)
    requires Linked(d) && syncHeights.Keys == d.syncHeights.Keys
    ensures Linked(d.(syncHeights := syncHeights))
  {
    hide Intact;
    var headers :| Intact(d.(headers := headers));
    RestartKeepsIntact(d.(headers := headers), syncHeights);
    assert d.(headers := headers).(syncHeights := syncHeights) == d.(syncHeights := syncHeights).(headers := headers);
  }

  lemma HeadersLinked(d: Db, height: nat)
    requires Linked(d)
    ensures Linked(HeadersUpTo(d, height))
  {
    hide Intact;
    var headers :| Intact(d.(headers := headers));
    assert HeadersUpTo(d, height).(headers := headers) == d.(headers := headers);
  }

  /** A rewind breaks nothing but checkpoints. */
  lemma RewindLinked(d: Db, account: nat, height: nat, activations: seq<nat>)
    requires Linked(d) && Rewound(d, account, height, activations).Some?
    ensures Linked(Rewound(d, account, height, activations).value)
  {
    hide Linked, Trimmed, HeadersUpTo;
    match PrevCheckpoint(d, account, height)
    case Some(prev) =>
      TrimLinked(d, account, prev);
      HeadersLinked(Trimmed(d, account, prev), height);
    case None =>
      var t := Trimmed(d, account, 0);
      TrimLinked(d, account, 0);
      RestartLinked(t, Restarted(t.syncHeights, account, d.accounts[account].cols.birth, activations));
      HeadersLinked(Reset(d, account, activations), height);
  }

  /** What a rewind does to checkpoints and headers. */
  ghost predicate Rewinds(d: Db, d': Db, accounts: seq<nat>, height: nat) {
    && (forall w | w in d'.witnesses :: w in d.witnesses && d'.witnesses[w] == d.witnesses[w])
    && (forall w | w in d'.witnesses && d'.witnesses[w].account in accounts :: d'.witnesses[w].height <= height)
    && (forall w | w in d.witnesses && d.witnesses[w].account !in accounts :: w in d'.witnesses)
    && (forall h :: h in d'.headers <==> h in d.headers && (accounts == [] || h <= height))
  }

  lemma RewindRewinds(d: Db, account: nat, height: nat, activations: seq<nat>)
    requires Rewound(d, account, height, activations).Some?
    ensures Rewinds(d, Rewound(d, account, height, activations).value, [account], height)
  {
    match PrevCheckpoint(d, account, height)
    case Some(prev) =>
      assert prev in CheckpointsBelow(d, account, height);
    case None =>
  }

  lemma RewindsCompose(d: Db, d1: Db, d2: Db, accounts: seq<nat>, account: nat, height: nat)
    requires Rewinds(d, d1, accounts, height) && Rewinds(d1, d2, [account], height)
    ensures Rewinds(d, d2, accounts + [account], height)
  {
  }

  lemma {:induction false} AllRewinds(d: Db, accounts: seq<nat>, height: nat, activations: seq<nat>)
    requires Linked(d) && AllRewound(d, accounts, height, activations).Some?
    ensures Linked(AllRewound(d, accounts, height, activations).value)
    ensures Rewinds(d, AllRewound(d, accounts, height, activations).value, accounts, height)
  {
    hide Linked, Rewound;
    if accounts != [] {
      var front, last := accounts[..|accounts| - 1], accounts[|accounts| - 1];
      assert front + [last] == accounts;
      AllRewinds(d, front, height, activations);
      var d1 := AllRewound(d, front, height, activations).value;
      RewindLinked(d1, last, height, activations);
      RewindRewinds(d1, last, height, activations);
      hide Rewinds;
      RewindsCompose(d, d1, Rewound(d1, last, height, activations).value, front, last, height);
    }
  }

  /** No account that is not rewound along has a checkpoint above the height. */
  ghost predicate OthersBelow(d: Db, accounts: seq<nat>, height: nat) {
    accounts == [] || forall w | w in d.witnesses && d.witnesses[w].account !in accounts ::
      d.witnesses[w].height <= height
  }

  lemma HeadedIff(d: Db, d': Db, accounts: seq<nat>, height: nat)
    requires Headed(d) && Rewinds(d, d', accounts, height)
    ensures Headed(d') <==> OthersBelow(d, accounts, height)
  {
    if Headed(d') && accounts != [] {
      forall w | w in d.witnesses && d.witnesses[w].account !in accounts
        ensures d.witnesses[w].height <= height
      {
        assert w in d'.witnesses;
      }
    }
    if OthersBelow(d, accounts, height) {
      forall w | w in d'.witnesses
        ensures d'.witnesses[w].height in d'.headers
      {
        assert w in d.witnesses;
      }
    }
  }

  /**
   A rewind of any accounts of an intact database leaves it intact if and only if
   no other account has a checkpoint above the height: the headers above it go for
   everybody.
   */
  lemma RewindIntactIff(d: Db, accounts: seq<nat>, height: nat, activations: seq<nat>)
    requires Intact(d) && AllRewound(d, accounts, height, activations).Some?
    ensures Intact(AllRewound(d, accounts, height, activations).value) <==> OthersBelow(d, accounts, height)
  {
    hide *;
    var d' := AllRewound(d, accounts, height, activations).value;
    IntactIffLinkedAndHeaded(d);
    IntactIffLinkedAndHeaded(d');
    AllRewinds(d, accounts, height, activations);
    HeadedIff(d, d', accounts, height);
  }

  /**
   Another account can be backed up after the rewind if and only if all its checkpoints are at or
   below the height.
   */
  lemma RewindExportableIff(d: Db, account: nat, height: nat, activations: seq<nat>, other: nat)
    requires Intact(d) && other in d.accounts && other != account && Rewound(d, account, height, activations).Some?
    ensures Exportable(Rewound(d, account, height, activations).value, other) <==>
            forall w | w in d.witnesses && d.witnesses[w].account == other :: d.witnesses[w].height <= height
  {
    hide *;
    IntactIffLinkedAndHeaded(d);
    RewindRewinds(d, account, height, activations);
    RewindKeepsAccounts(d, account, height, activations);
    ExportableAfter(d, Rewound(d, account, height, activations).value, account, height, other);
  }

  lemma ExportableAfter(d: Db, d': Db, account: nat, height: nat, other: nat)
    requires Headed(d) && Rewinds(d, d', [account], height) && d'.accounts == d.accounts
    requires other in d.accounts && other != account
    ensures Exportable(d', other) <==>
            forall w | w in d.witnesses && d.witnesses[w].account == other :: d.witnesses[w].height <= height
  {
    forall w | w in d.witnesses && d.witnesses[w].account == other
      ensures w in d'.witnesses && (d'.witnesses[w].height in d'.headers <==> d.witnesses[w].height <= height)
    {
      assert w in d'.witnesses;
    }
  }

  lemma RewindKeepsAccounts(d: Db, account: nat, height: nat, activations: seq<nat>)
    requires Rewound(d, account, height, activations).Some?
    ensures Rewound(d, account, height, activations).value.accounts == d.accounts
  {
    hide Trimmed;
    match PrevCheckpoint(d, account, height)
    case Some(prev) => TrimKeepsAccounts(d, account, prev);
    case None => TrimKeepsAccounts(d, account, 0);
  }

  lemma TrimKeepsAccounts(d: Db, account: nat, height: nat)
    ensures Trimmed(d, account, height).accounts == d.accounts
  {
    hide Without;
  }

  /** Two accounts; the second has a transaction, a note and a checkpoint. */
  function TwoAccounts(cols: AccountCols, tx: TxCols, note: NoteCols, above: nat, header: Header): Db {
    BareWallet(cols).(accounts := map[1 := Account(cols, None, 1), 2 := Account(cols, None, 2)],
                      txs := map[1 := Tx(2, tx, None)], notes := map[1 := Note(2, 1, note, None, None)],
                      witnesses := map[1 := Witness(2, 1, above, [])], headers := map[above := header])
  }

  lemma TwoAccountsIntact(cols: AccountCols, tx: TxCols, note: NoteCols, above: nat, header: Header)
    requires tx.height <= note.height <= above && IsI64(note.value)
    ensures Intact(TwoAccounts(cols, tx, note, above, header))
  {
    hide *;
    var d := TwoAccounts(cols, tx, note, above, header);
    TwoAccountsOwned(cols, tx, note, above, header);
    TwoAccountsRows(cols, tx, note, above, header);
    IntactIs(d);
  }

  lemma TwoAccountsOwned(cols: AccountCols, tx: TxCols, note: NoteCols, above: nat, header: Header)
    ensures Constraints(TwoAccounts(cols, tx, note, above, header)) && Owned(TwoAccounts(cols, tx, note, above, header))
  {
  }

  lemma TwoAccountsRows(cols: AccountCols, tx: TxCols, note: NoteCols, above: nat, header: Header)
    requires tx.height <= note.height <= above && IsI64(note.value)
    ensures var d := TwoAccounts(cols, tx, note, above, header);
            && (forall k | k in d.notes :: NoteIntact(d, d.notes[k]))
            && (forall k | k in d.witnesses :: WitnessIntact(d, d.witnesses[k]))
            && d.outputs == map[] && d.memos == map[] && d.spends == map[]
  {
  }

  /**
   Rewinding the first account below the checkpoint of the second leaves a dangling reference and
   fails its backup.
   */
  lemma RewindBreaksOther(cols: AccountCols, tx: TxCols, note: NoteCols, above: nat, header: Header, height: nat,
          activations: seq<nat>)
    requires tx.height <= note.height <= above && IsI64(note.value) && height < above
    ensures var d := TwoAccounts(cols, tx, note, above, header);
            && Intact(d) && Exportable(d, 2) && Rewound(d, 1, height, activations).Some?
            && !Intact(Rewound(d, 1, height, activations).value)
            && !Exportable(Rewound(d, 1, height, activations).value, 2)
  {
    var d := TwoAccounts(cols, tx, note, above, header);
    TwoAccountsIntact(cols, tx, note, above, header);
    assert d.witnesses[1].account == 2 && d.witnesses[1].height == above;
    assert Exportable(d, 2) && !OthersBelow(d, [1], height);
    OneRewound(d, 1, height, activations);
    RewindExportableIff(d, 1, height, activations, 2);
    hide *;
    RewindIntactIff(d, [1], height, activations);
  }

  lemma OneRewound(d: Db, account: nat, height: nat, activations: seq<nat>)
    ensures AllRewound(d, [account], height, activations) == Rewound(d, account, height, activations)
    ensures account in d.accounts ==> Rewound(d, account, height, activations).Some?
  {
    assert [account][..0] == [];
    assert AllRewound(d, [], height, activations) == Some(d);
  }

  // ---------------------------------------------------------------------
  // Whole runs
  // ---------------------------------------------------------------------

  /** A restore brings an account of another database of the same kind. */
  datatype Op =
    | Restore(source: Db, account: nat, io: IOAccount)
    | Delete(account: nat)
    | Trim(account: nat, height: nat)
    | Rewind(accounts: seq<nat>, height: nat, activations: seq<nat>)

  ghost predicate Step(d: Db, op: Op, d': Db) {
    match op
    case Restore(src, account, io) => Intact(src) && Exported(src, account, io) && exists c, r ::
      Imported(d, io, d', c, r)
    case Delete(account) => d' == Deleted(d, account)
    case Trim(account, height) => d' == Trimmed(d, account, height)
    case Rewind(accounts, height, activations) => AllRewound(d, accounts, height, activations) == Some(d')
  }

  ghost predicate Run(states: seq<Db>, ops: seq<Op>) {
    |states| == |ops| + 1 && forall i | 0 <= i < |ops| :: Step(states[i], ops[i], states[i + 1])
  }

  /** What a rewind asks for; the other operations ask for nothing. */
  ghost predicate Safe(d: Db, op: Op) {
    op.Rewind? ==> OthersBelow(d, op.accounts, op.height)
  }

  lemma StepIntactIff(d: Db, op: Op, d': Db)
    requires Intact(d) && Step(d, op, d')
    ensures Intact(d') <==> Safe(d, op)
  {
    hide Intact, Exported, Imported, Deleted, Trimmed, AllRewound, OthersBelow;
    match op
    case Restore(src, account, io) =>
      var c, r :| Imported(d, io, d', c, r);
      RestoreKeepsIntact(src, account, io, d, d', c, r);
    case Delete(account) => DeleteKeepsIntact(d, account);
    case Trim(account, height) => TrimKeepsIntact(d, account, height);
    case Rewind(accounts, height, activations) => RewindIntactIff(d, accounts, height, activations);
  }

  lemma {:induction false} SafeRunKeepsIntact(states: seq<Db>, ops: seq<Op>)
    requires Run(states, ops) && Intact(states[0])
    requires forall i | 0 <= i < |ops| :: Safe(states[i], ops[i])
    ensures forall i | 0 <= i < |states| :: Intact(states[i])
  {
    hide Intact, Step, Safe;
    if ops != [] {
      var n := |ops| - 1;
      assert states[..n + 1][n] == states[n];
      SafeRunKeepsIntact(states[..n + 1], ops[..n]);
      StepIntactIff(states[n], ops[n], states[n + 1]);
      forall i | 0 <= i < |states| ensures Intact(states[i]) {
        if i <= n { assert states[..n + 1][i] == states[i]; }
      }
    }
  }

  /**
   Over any run of restores, deletions, trims and rewinds from an intact database,
   every state is intact if and only if no rewind takes headers another account needs.
   */
  lemma RunIntactIff(states: seq<Db>, ops: seq<Op>)
    requires Run(states, ops) && Intact(states[0])
    ensures (forall i | 0 <= i < |states| :: Intact(states[i])) <==>
              (forall i | 0 <= i < |ops| :: Safe(states[i], ops[i]))
  {
    hide Intact, Step, Safe;
    if forall i | 0 <= i < |ops| :: Safe(states[i], ops[i]) {
      SafeRunKeepsIntact(states, ops);
    }
    if forall i | 0 <= i < |states| :: Intact(states[i]) {
      forall i | 0 <= i < |ops| ensures Safe(states[i], ops[i]) {
        StepIntactIff(states[i], ops[i], states[i + 1]);
      }
    }
  }
}
