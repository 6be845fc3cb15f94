/**
 Balances: the ledger of notes and spends, the split of the unspent notes into
 spendable and maturing value, and how restores and rewinds act on them.
 */
module Accounting {
  import opened Wrappers
  import opened Tables
  import opened Sums
  import opened Schema
  import opened BackupExport
  import opened BackupRelocation
  import opened BackupRoundTrip
  import opened Wallet

  const MAX_HEIGHT: nat := 0xFFFF_FFFF
  const NUM_POOLS: nat := 4

  // ---------------------------------------------------------------------
  // The ledger
  // ---------------------------------------------------------------------

  function NoteWeight(account: nat, pool: nat, limit: nat): (nat, Note) -> int {
    (k: nat, n: Note) => if n.account == account && n.asset == None && n.cols.pool == pool
    && n.cols.height <= limit then n.cols.value else 0
  }

  function SpendWeight(notes: Table<Note>, account: nat, pool: nat, limit: nat): (nat, Spend) -> int {
    (k: nat, s: Spend) =>
      if s.account == account && k in notes && notes[k].asset == None && s.pool == pool
      && s.height <= limit then s.value else 0
  }

  function Limit(height: Option<nat>): nat {
    if height.Some? then height.value else MAX_HEIGHT
  }

  /** Notes count from their height on, and spends, whose values are negative, from theirs. */
  function Balance(db: Db, account: nat, pool: nat, height: Option<nat>): int {
    var limit := Limit(height);
    Sum(db.notes, NoteWeight(account, pool, limit)) + Sum(db.spends, SpendWeight(db.notes, account, pool, limit))
  }

  lemma BalanceIs(db: Db, account: nat, pool: nat, height: Option<nat>)
    ensures Balance(db, account, pool, height) ==
            Sum(db.notes, NoteWeight(account, pool, Limit(height))) + Sum(db.spends,
                SpendWeight(db.notes, account, pool, Limit(height)))
  {
    hide Sum;
  }

  /** What is left of each note at a height. */
  function Remaining(db: Db, account: nat, pool: nat, limit: nat): (nat, Note) -> int {
    (k: nat, n: Note) =>
      if k in db.spends && db.spends[k].height <= limit then 0 else NoteWeight(account, pool, limit)(k, n)
  }

  function SpentPart(db: Db, account: nat, pool: nat, limit: nat): (nat, Note) -> int {
    (k: nat, n: Note) =>
      if k in db.spends && db.spends[k].height <= limit then -NoteWeight(account, pool, limit)(k, n) else 0
  }

  /** The two halves of the union cancel note by note. */
  lemma LedgerCancels(db: Db, account: nat, pool: nat, limit: nat)
    requires Intact(db)
    ensures Sum(db.notes, NoteWeight(account, pool, limit)) + Sum(db.spends,
                SpendWeight(db.notes, account, pool, limit))
         == Sum(db.notes, Remaining(db, account, pool, limit))
  {
    SpendsAreNegated(db, account, pool, limit);
    hide Intact;
    SumPlus(db.notes, NoteWeight(account, pool, limit), SpentPart(db, account, pool, limit),
        Remaining(db, account, pool, limit));
  }

  function SpentNotes(db: Db): Table<Note> {
    map k | k in db.notes && k in db.spends :: db.notes[k]
  }

  /** The spends of a ledger, as weights of the notes they spend. */
  lemma SpendsAreNegated(db: Db, account: nat, pool: nat, limit: nat)
    requires Intact(db)
    ensures Sum(db.spends, SpendWeight(db.notes, account, pool, limit)) ==
              Sum(db.notes, SpentPart(db, account, pool, limit))
  {
    var w, v := SpentPart(db, account, pool, limit), SpendWeight(db.notes, account, pool, limit);
    assert forall k | k in db.spends :: SpendIntact(db, k, db.spends[k]);
    hide Intact, Sum;
    SpentWeights(db, account, pool, limit);
    hide SpentPart, SpendWeight, SpendIntact;
    SumSub(db.notes, SpentNotes(db), w, w);
    SumAcross(SpentNotes(db), db.spends, w, v);
  }

  lemma SpentWeights(db: Db, account: nat, pool: nat, limit: nat)
    requires forall k | k in db.spends :: SpendIntact(db, k, db.spends[k])
    ensures SpentNotes(db).Keys == db.spends.Keys
    ensures forall k | k in SpentNotes(db) :: k in db.notes && SpentNotes(db)[k] == db.notes[k]
    ensures forall k | k in db.notes && k !in SpentNotes(db) :: SpentPart(db, account, pool, limit)(k, db.notes[k]) == 0
    ensures forall k | k in SpentNotes(db) ::
              SpentPart(db, account, pool, limit)(k, SpentNotes(db)[k]) ==
                SpendWeight(db.notes, account, pool, limit)(k, db.spends[k])
  {
    forall k | k in db.spends
      ensures k in db.notes
      ensures SpentPart(db, account, pool, limit)(k, db.notes[k]) ==
                SpendWeight(db.notes, account, pool, limit)(k, db.spends[k])
    {
      SpentWeight(db, account, pool, limit, k);
    }
  }

  lemma SpentWeight(db: Db, account: nat, pool: nat, limit: nat, k: nat)
    requires k in db.spends && SpendIntact(db, k, db.spends[k])
    ensures k in db.notes
            && SpentPart(db, account, pool, limit)(k, db.notes[k]) ==
                 SpendWeight(db.notes, account, pool, limit)(k, db.spends[k])
  {
    var n, s := db.notes[k], db.spends[k];
    assert SpentPart(db, account, pool, limit)(k, n) == if s.height <= limit
             then -NoteWeight(account, pool, limit)(k, n) else 0;
  }

  /** Two tables with the same keys and the same weights. */
  lemma {:induction false} SumAcross<T, U>(t: Table<T>, u: Table<U>, v: (nat, T) -> int, w: (nat, U) -> int)
    requires t.Keys == u.Keys && forall k | k in t :: v(k, t[k]) == w(k, u[k])
    ensures Sum(t, v) == Sum(u, w)
    decreases |t|
  {
    if t.Keys != {} {
      var top := MaxOf(t.Keys);
      Drops(t, top);
      assert (t - {top}).Keys == (u - {top}).Keys;
      SumAcross(t - {top}, u - {top}, v, w);
      SumWithout(u, w, top);
    }
  }

  ghost predicate ValuesPositive(db: Db) {
    forall k | k in db.notes :: 0 <= db.notes[k].cols.value
  }

  /** At every height the balance is what is left unspent, so the cast to an unsigned integer is safe. */
  lemma BalanceNonNegative(db: Db, account: nat, pool: nat, height: Option<nat>)
    requires Intact(db) && ValuesPositive(db)
    ensures 0 <= Balance(db, account, pool, height)
  {
    var limit := Limit(height);
    hide *;
    LedgerCancels(db, account, pool, limit);
    BalanceIs(db, account, pool, height);
    RemainingNonNegative(db, account, pool, limit);
  }

  lemma RemainingNonNegative(db: Db, account: nat, pool: nat, limit: nat)
    requires ValuesPositive(db)
    ensures 0 <= Sum(db.notes, Remaining(db, account, pool, limit))
  {
    hide Sum;
    var zero := (k: nat, n: Note) => 0;
    SumZero(db.notes, zero);
    forall k | k in db.notes
      ensures zero(k, db.notes[k]) <= Remaining(db, account, pool, limit)(k, db.notes[k])
    {
      assert 0 <= NoteWeight(account, pool, limit)(k, db.notes[k]);
    }
    SumAtLeast(db.notes, zero, Remaining(db, account, pool, limit));
  }

  // ---------------------------------------------------------------------
  // Restores and rewinds
  // ---------------------------------------------------------------------

  /** A restored account has the balance of the original in every pool and at every height. */
  lemma RestoreKeepsBalance(src: Db, account: nat, dst: Db, d': Db, m: Relocation, pool: nat, height: Option<nat>)
    requires Intact(src) && Intact(dst) && Restored(src, account, dst, d', m) && MapsReady(src, account, dst, m)
    ensures Balance(d', m.c.account, pool, height) == Balance(src, account, pool, height)
  {
    hide Intact, Restored, MapsReady, Sum;
    var limit := Limit(height);
    RestoreKeepsNotes(src, account, dst, d', m, pool, limit);
    RestoreKeepsSpends(src, account, dst, d', m, pool, limit);
  }

  lemma NotesAreHome(d: Db)
    requires Intact(d)
    ensures forall k | k in d.notes ::
              d.notes[k].account in d.accounts && (d.notes[k].asset.Some? ==> d.notes[k].asset.value in d.assets)
    ensures forall k | k in d.spends :: d.spends[k].account in d.accounts
  {
    forall k | k in d.notes
      ensures d.notes[k].account in d.accounts && (d.notes[k].asset.Some? ==> d.notes[k].asset.value in d.assets)
    {
      assert NoteIntact(d, d.notes[k]);
    }
    SpendPlaces(d);
  }

  lemma RestoreKeepsNotes(src: Db, account: nat, dst: Db, d': Db, m: Relocation, pool: nat, limit: nat)
    requires Intact(src) && Intact(dst) && Restored(src, account, dst, d', m)
    ensures Sum(d'.notes, NoteWeight(m.c.account, pool, limit)) == Sum(src.notes, NoteWeight(account, pool, limit))
  {
    hide *;
    var w, w' := NoteWeight(account, pool, limit), NoteWeight(m.c.account, pool, limit);
    RestoredParts(src, account, dst, d', m);
    NotesAreHome(src);
    NotesAreHome(dst);
    CopiedReady(src.notes, NoteOf(account), dst.notes, d'.notes, RestoredNote(m), m.notes);
    forall k | k in m.notes
      ensures w'(m.notes[k], RestoredNote(m)(src.notes[k])) == w(k, src.notes[k])
    {
      NoteWeightMoves(account, m, pool, limit, k, src.notes[k]);
    }
    forall k | k in src.notes && k !in m.notes
      ensures w(k, src.notes[k]) == 0
    {
      OtherNote(account, pool, limit, k, src.notes[k]);
    }
    forall k | k in dst.notes
      ensures w'(k, dst.notes[k]) == 0
    {
      OtherNote(m.c.account, pool, limit, k, dst.notes[k]);
    }
    SumCopied(src.notes, NoteOf(account), dst.notes, d'.notes, RestoredNote(m), m.notes, w, w');
  }

  lemma NoteWeightMoves(account: nat, m: Relocation, pool: nat, limit: nat, k: nat, n: Note)
    requires NoteOf(account)(n) && k in m.notes && (n.asset.Some? ==> n.asset.value in m.c.assets)
    ensures NoteWeight(m.c.account, pool, limit)(m.notes[k], RestoredNote(m)(n)) ==
              NoteWeight(account, pool, limit)(k, n)
  {
  }

  lemma OtherNote(account: nat, pool: nat, limit: nat, k: nat, n: Note)
    requires n.account != account || !NoteOf(account)(n)
    ensures NoteWeight(account, pool, limit)(k, n) == 0
  {
  }

  lemma RestoreKeepsSpends(src: Db, account: nat, dst: Db, d': Db, m: Relocation, pool: nat, limit: nat)
    requires Intact(src) && Intact(dst) && Restored(src, account, dst, d', m) && MapsReady(src, account, dst, m)
    ensures Sum(d'.spends, SpendWeight(d'.notes, m.c.account, pool, limit)) ==
              Sum(src.spends, SpendWeight(src.notes, account, pool, limit))
  {
    hide *;
    var sm := SpentMap(src, account, m);
    var w, w' := SpendWeight(src.notes, account, pool, limit), SpendWeight(d'.notes, m.c.account, pool, limit);
    RestoredParts(src, account, dst, d', m);
    CopiedReady(src.spends, SpendOf(account), dst.spends, d'.spends, RestoredSpend(m), sm);
    NotesAreHome(src);
    NotesAreHome(dst);
    forall k | k in sm
      ensures w'(sm[k], RestoredSpend(m)(src.spends[k])) == w(k, src.spends[k])
    {
      SpendWeightMoves(src, account, dst, d', m, pool, limit, k);
    }
    forall k | k in src.spends && k !in sm
      ensures w(k, src.spends[k]) == 0
    {
      OtherSpend(src.notes, account, pool, limit, k, src.spends[k]);
    }
    forall k | k in dst.spends
      ensures w'(k, dst.spends[k]) == 0
    {
      OtherSpend(d'.notes, m.c.account, pool, limit, k, dst.spends[k]);
    }
    SumCopied(src.spends, SpendOf(account), dst.spends, d'.spends, RestoredSpend(m), sm, w, w');
  }

  lemma OtherSpend(notes: Table<Note>, account: nat, pool: nat, limit: nat, k: nat, s: Spend)
    requires s.account != account || !SpendOf(account)(s)
    ensures SpendWeight(notes, account, pool, limit)(k, s) == 0
  {
  }

  lemma SpendWeightMoves(src: Db, account: nat, dst: Db, d': Db, m: Relocation, pool: nat, limit: nat, k: nat)
    requires Copied(src.notes, NoteOf(account), dst.notes, d'.notes, RestoredNote(m), m.notes)
    requires forall n | n in src.notes && src.notes[n].asset.Some? :: src.notes[n].asset.value in src.assets
    requires forall a | a in src.assets :: a in m.c.assets
    requires k in SpentMap(src, account, m)
    ensures k in src.spends
    ensures SpendWeight(d'.notes, m.c.account, pool, limit)(SpentMap(src, account, m)[k],
                RestoredSpend(m)(src.spends[k]))
         == SpendWeight(src.notes, account, pool, limit)(k, src.spends[k])
  {
    assert k in m.notes;
    CopiedAt(src.notes, NoteOf(account), dst.notes, d'.notes, RestoredNote(m), m.notes, k);
    hide Copied;
  }

  /** Nor does a restore change the balance of any other account. */
  lemma RestoreKeepsOtherBalances(src: Db, account: nat, dst: Db, d': Db, m: Relocation, other: nat, pool: nat,
          height: Option<nat>)
    requires Intact(dst) && Restored(src, account, dst, d', m) && other != m.c.account
    ensures Balance(d', other, pool, height) == Balance(dst, other, pool, height)
  {
    var limit := Limit(height);
    hide *;
    RestoredParts(src, account, dst, d', m);
    SpendsInPlace(dst);
    NewRowsElsewhere(src.notes, NoteOf(account), dst.notes, d'.notes, RestoredNote(m), m.notes);
    NewRowsElsewhere(src.spends, SpendOf(account), dst.spends, d'.spends, RestoredSpend(m), SpentMap(src, account, m));
    BalanceIs(d', other, pool, height);
    BalanceIs(dst, other, pool, height);
    OtherNotes(src, dst, d', m, other, pool, limit);
    OtherSpends(src, dst, d', m, other, pool, limit);
  }

  lemma OtherNotes(src: Db, dst: Db, d': Db, m: Relocation, other: nat, pool: nat, limit: nat)
    requires other != m.c.account && forall k | k in dst.notes :: k in d'.notes && d'.notes[k] == dst.notes[k]
    requires forall k | k in d'.notes && k !in dst.notes ::
               exists i :: i in src.notes && d'.notes[k] == RestoredNote(m)(src.notes[i])
    ensures Sum(d'.notes, NoteWeight(other, pool, limit)) == Sum(dst.notes, NoteWeight(other, pool, limit))
  {
    hide Sum;
    SumSub(d'.notes, dst.notes, NoteWeight(other, pool, limit), NoteWeight(other, pool, limit));
  }

  lemma OtherSpends(src: Db, dst: Db, d': Db, m: Relocation, other: nat, pool: nat, limit: nat)
    requires other != m.c.account && forall k | k in dst.notes :: k in d'.notes && d'.notes[k] == dst.notes[k]
    requires forall k | k in dst.spends :: k in d'.spends && d'.spends[k] == dst.spends[k]
    requires forall k | k in dst.spends :: k in dst.notes
    requires forall k | k in d'.spends && k !in dst.spends ::
               exists i :: i in src.spends && d'.spends[k] == RestoredSpend(m)(src.spends[i])
    ensures Sum(d'.spends, SpendWeight(d'.notes, other, pool, limit)) ==
              Sum(dst.spends, SpendWeight(dst.notes, other, pool, limit))
  {
    hide Sum;
    SumSub(d'.spends, dst.spends, SpendWeight(d'.notes, other, pool, limit),
        SpendWeight(dst.notes, other, pool, limit));
  }

  lemma SpendsInPlace(d: Db)
    requires Intact(d)
    ensures forall k | k in d.spends :: k in d.notes
  {
    SpendPlaces(d);
  }

  lemma NewRowsElsewhere<T(!new)>(s: Table<T>, p: T -> bool, d: Table<T>, d': Table<T>, tr: T -> T, m: map<nat, nat>)
    requires Copied(s, p, d, d', tr, m)
    ensures forall k | k in d :: k in d' && d'[k] == d[k]
    ensures forall k | k in d' && k !in d :: exists i :: i in s && d'[k] == tr(s[i])
  {
    forall k | k in d' && k !in d
      ensures exists i :: i in s && d'[k] == tr(s[i])
    {
      var i :| i in m && m[i] == k;
      assert i in s && d'[k] == tr(s[i]);
    }
  }

  /** After a rewind the account has the balance it had at that height. */
  lemma TrimRestoresBalance(db: Db, account: nat, height: nat, pool: nat)
    requires Intact(db) && height <= MAX_HEIGHT
    ensures Balance(Trimmed(db, account, height), account, pool, None) == Balance(db, account, pool, Some(height))
  {
    hide *;
    var d' := Trimmed(db, account, height);
    SpendsIntact(db);
    LimitOf(height);
    BalanceIs(d', account, pool, None);
    BalanceIs(db, account, pool, Some(height));
    TrimmedNotes(db, account, height, pool);
    TrimmedSpends(db, account, height, pool);
  }

  lemma LimitOf(height: nat)
    ensures Limit(None) == MAX_HEIGHT && Limit(Some(height)) == height
  {
  }

  lemma TrimmedNotes(db: Db, account: nat, height: nat, pool: nat)
    requires height <= MAX_HEIGHT
    ensures Sum(Trimmed(db, account, height).notes, NoteWeight(account, pool, MAX_HEIGHT)) ==
              Sum(db.notes, NoteWeight(account, pool, height))
  {
    hide Sum;
    SumSub(db.notes, Trimmed(db, account, height).notes, NoteWeight(account, pool, height),
        NoteWeight(account, pool, MAX_HEIGHT));
  }

  lemma TrimmedSpends(db: Db, account: nat, height: nat, pool: nat)
    requires height <= MAX_HEIGHT && forall k | k in db.spends :: SpendIntact(db, k, db.spends[k])
    ensures var d' := Trimmed(db, account, height);
            Sum(d'.spends, SpendWeight(d'.notes, account, pool, MAX_HEIGHT)) ==
              Sum(db.spends, SpendWeight(db.notes, account, pool, height))
  {
    hide Sum;
    var d' := Trimmed(db, account, height);
    var v, w := SpendWeight(db.notes, account, pool, height), SpendWeight(d'.notes, account, pool, MAX_HEIGHT);
    forall k | k in d'.spends
      ensures k in db.spends && w(k, d'.spends[k]) == v(k, db.spends[k])
    {
      assert SpendIntact(db, k, db.spends[k]);
    }
    SumSub(db.spends, d'.spends, v, w);
  }
}
