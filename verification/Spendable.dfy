/**
 The unspent notes of an account: their split into available, locked and
 pending value, and how much of them a payment can spend.
 */
module Spendable {
  import opened Wrappers
  import opened Tables
  import opened Sums
  import opened Schema
  import opened BackupExport
  import opened Wallet
  import opened Accounting

  datatype Reservation = Reservation(account: nat, nullifier: Blob, expiry: nat)

  function ReservationKey(r: Reservation): (nat, Blob) { (r.account, r.nullifier) }

  function SyncedHeights(db: Db, account: nat): set<nat> {
    set k | k in db.syncHeights && k.0 == account :: db.syncHeights[k]
  }

  /** MIN over the sync heights of the account; NULL without any. */
  function Synced(db: Db, account: nat): Option<nat> {
    var hs := SyncedHeights(db, account);
    if hs == {} then None else Some(MinOf(hs))
  }

  /** Held for good, or expiring above the lowest height the account has synced. */
  predicate Active(db: Db, r: Reservation) {
    r.expiry == 0 || r.expiry > (if Synced(db, r.account).Some? then Synced(db, r.account).value else 0)
  }

  lemma SyncedBounds(db: Db, account: nat)
    ensures Synced(db, account).None? <==> forall k | k in db.syncHeights :: k.0 != account
    ensures Synced(db, account).Some? ==>
              exists k :: k in db.syncHeights && k.0 == account && db.syncHeights[k] == Synced(db, account).value
    ensures Synced(db, account).Some? ==>
              forall k | k in db.syncHeights && k.0 == account :: Synced(db, account).value <= db.syncHeights[k]
  {
    forall k | k in db.syncHeights && k.0 == account
      ensures db.syncHeights[k] in SyncedHeights(db, account)
    {
    }
  }

  /** A reservation is released exactly when it can expire and every pool of its account has reached its expiry. */
  lemma ReleasedIff(db: Db, r: Reservation)
    ensures !Active(db, r) <==>
            && r.expiry > 0 && (exists k :: k in db.syncHeights && k.0 == r.account)
            && forall k | k in db.syncHeights && k.0 == r.account :: r.expiry <= db.syncHeights[k]
  {
    SyncedBounds(db, r.account);
  }

  /** A trim of a synced account brings back exactly the reservations that expire above its height. */
  lemma TrimReactivatesIff(db: Db, height: nat, r: Reservation)
    requires exists k :: k in db.syncHeights && k.0 == r.account
    ensures Active(Trimmed(db, r.account, height), r) <==> r.expiry == 0 || height < r.expiry
  {
    var d' := Trimmed(db, r.account, height);
    TrimResumes(db, r.account, height);
    hide Trimmed, Rescans, Active;
    ReleasedIff(d', r);
    var k :| k in db.syncHeights && k.0 == r.account;
    assert k in d'.syncHeights && d'.syncHeights[k] == height;
  }

  predicate Holds(db: Db, r: Reservation, n: Note) {
    Active(db, r) && r.account == n.account && r.nullifier == n.cols.nullifier
  }

  function HoldsNote(db: Db, n: Note): Reservation -> bool { (r: Reservation) => Holds(db, r, n) }

  predicate Reserved(db: Db, reservations: Table<Reservation>, n: Note) {
    exists k :: k in reservations && Holds(db, reservations[k], n)
  }

  /** A row of the join: a note, and whether a reservation stands beside it. */
  datatype Joined = Joined(id: nat, note: Note, reserved: bool)

  ghost predicate Unspent(db: Db, account: nat, id: nat) {
    id in db.notes && db.notes[id].account == account && db.notes[id].asset == None && id !in db.spends
  }

  function Ids(rows: seq<Joined>): seq<nat> { seq(|rows|, i requires 0 <= i < |rows| => rows[i].id) }

  /** One row for every unspent note, and none twice. */
  ghost predicate JoinedOnce(db: Db, reservations: Table<Reservation>, account: nat, rows: seq<Joined>) {
    && NoDup(Ids(rows))
    && (forall i | 0 <= i < |rows| :: Unspent(db, account, rows[i].id) && rows[i].note == db.notes[rows[i].id]
                                      && (rows[i].reserved <==> Reserved(db, reservations, rows[i].note)))
    && (forall k | Unspent(db, account, k) :: k in Ids(rows))
  }

  /** The two LEFT JOINs: a note comes out once for each reservation that holds it, or once without. */
  method JoinUnspent(db: Db, reservations: Table<Reservation>, account: nat) returns (rows: seq<Joined>)
    ensures Unique(reservations, ReservationKey) ==> JoinedOnce(db, reservations, account, rows)
  {
    hide Active;
    var ids := Select(db.notes, NoteOf(account));
    rows := [];
    for i := 0 to |ids|
      invariant Unique(reservations, ReservationKey) ==>
          && NoDup(Ids(rows))
          && (forall j | 0 <= j < |rows| ::
               Unspent(db, account, rows[j].id) && rows[j].id in ids[..i] && rows[j].note == db.notes[rows[j].id]
                                            && (rows[j].reserved <==> Reserved(db, reservations, rows[j].note)))
          && (forall j | 0 <= j < i && Unspent(db, account, ids[j]) :: ids[j] in Ids(rows))
    {
      var n := db.notes[ids[i]];
      if n.asset == None && ids[i] !in db.spends {
        var joined := JoinReservations(db, reservations, ids[i]);
        if Unique(reservations, ReservationKey) {
          assert ids[i] !in ids[..i];
          assert ids[..i + 1] == ids[..i] + [ids[i]];
          assert Ids(rows + joined) == Ids(rows) + [ids[i]];
        }
        rows := rows + joined;
      } else {
        assert ids[..i + 1] == ids[..i] + [ids[i]];
      }
    }
    assert forall k | Unspent(db, account, k) :: NoteOf(account)(db.notes[k]);
  }

  method JoinReservations(db: Db, reservations: Table<Reservation>, id: nat) returns (joined: seq<Joined>)
    requires id in db.notes
    ensures Unique(reservations, ReservationKey) ==>
              |joined| == 1 && joined[0].id == id && joined[0].note == db.notes[id]
              && (joined[0].reserved <==> Reserved(db, reservations, db.notes[id]))
  {
    var n := db.notes[id];
    var holding := Select(reservations, HoldsNote(db, n));
    if Unique(reservations, ReservationKey) {
      AtMostOne(holding, reservations, HoldsNote(db, n));
    }
    if |holding| == 0 {
      return [Joined(id, n, false)];
    }
    assert Holds(db, reservations[holding[0]], n);
    joined := seq(|holding|, i requires 0 <= i < |holding| => Joined(id, n, true));
  }

  // ---------------------------------------------------------------------
  // The split
  // ---------------------------------------------------------------------

  predicate Available(r: Joined, cutoff: nat) { r.note.cols.height <= cutoff && !r.note.cols.locked && !r.reserved }
  predicate Locked(r: Joined, cutoff: nat) { r.note.cols.height <= cutoff && (r.note.cols.locked || r.reserved) }
  predicate Change(r: Joined, cutoff: nat) { r.note.cols.height > cutoff && r.note.cols.scope == Some(1) }
  predicate Incoming(r: Joined, cutoff: nat) { r.note.cols.height > cutoff
          && (r.note.cols.scope.None? || r.note.cols.scope.value != 1) }

  datatype PoolBalance = PoolBalance(available: int, locked: int, changePending: int, valuePending: int)

  function Total(b: PoolBalance): int { b.available + b.locked + b.changePending + b.valuePending }

  /** SUM(CASE WHEN p THEN value ELSE 0 END) over the rows of one pool. */
  function ValueWhere(rows: seq<Joined>, pool: nat, p: Joined -> bool): int {
    if rows == [] then 0
    else
      var r := rows[|rows| - 1];
      ValueWhere(rows[..|rows| - 1], pool, p) + if r.note.cols.pool == pool && p(r) then r.note.cols.value else 0
  }

  function AvailableAt(cutoff: nat): Joined -> bool { (r: Joined) => Available(r, cutoff) }
  function LockedAt(cutoff: nat): Joined -> bool { (r: Joined) => Locked(r, cutoff) }
  function ChangeAt(cutoff: nat): Joined -> bool { (r: Joined) => Change(r, cutoff) }
  function IncomingAt(cutoff: nat): Joined -> bool { (r: Joined) => Incoming(r, cutoff) }
  function Any(): Joined -> bool { (r: Joined) => true }

  function SplitOf(rows: seq<Joined>, pool: nat, cutoff: nat): PoolBalance {
    PoolBalance(ValueWhere(rows, pool, AvailableAt(cutoff)), ValueWhere(rows, pool, LockedAt(cutoff)),
                ValueWhere(rows, pool, ChangeAt(cutoff)), ValueWhere(rows, pool, IncomingAt(cutoff)))
  }

  function Cutoff(synced: Option<nat>, confirmations: nat): nat {
    var h := if synced.Some? then synced.value else 0;
    if h >= confirmations then h - confirmations else 0
  }

  method Breakdown(rows: seq<Joined>, cutoff: nat) returns (b: array<PoolBalance>)
    requires forall i | 0 <= i < |rows| :: rows[i].note.cols.pool < NUM_POOLS
    ensures fresh(b) && b.Length == NUM_POOLS && forall p: nat | p < NUM_POOLS :: b[p] == SplitOf(rows, p, cutoff)
  {
    b := new PoolBalance[NUM_POOLS](p => PoolBalance(0, 0, 0, 0));
    for i := 0 to |rows|
      invariant forall p: nat | p < NUM_POOLS :: b[p] == SplitOf(rows[..i], p, cutoff)
    {
      assert rows[..i + 1][..i] == rows[..i];
      var r := rows[i];
      var was := b[r.note.cols.pool];
      var v := r.note.cols.value;
      b[r.note.cols.pool] := PoolBalance(
        was.available + (if Available(r, cutoff) then v else 0), was.locked + (if Locked(r, cutoff) then v else 0),
        was.changePending + (if Change(r, cutoff) then v else 0),
            was.valuePending + (if Incoming(r, cutoff) then v else 0));
    }
    assert rows[..|rows|] == rows;
  }

  /** Every row falls in exactly one part. */
  lemma {:induction false} PartsAddUp(rows: seq<Joined>, pool: nat, cutoff: nat)
    ensures Total(SplitOf(rows, pool, cutoff)) == ValueWhere(rows, pool, Any())
  {
    if rows != [] {
      PartsAddUp(rows[..|rows| - 1], pool, cutoff);
    }
  }

  function UnspentWeight(db: Db, account: nat, pool: nat): (nat, Note) -> int {
    (k: nat, n: Note) => if n.account == account && n.asset == None && k !in db.spends
    && n.cols.pool == pool then n.cols.value else 0
  }

  /** The value of the unspent notes of a pool that satisfy `p`. */
  ghost function UnspentIf(db: Db, account: nat, pool: nat, p: Note -> bool): (nat, Note) -> int {
    (k: nat, n: Note) => if n.account == account && n.asset == None && k !in db.spends && n.cols.pool == pool
    && p(n) then n.cols.value else 0
  }

  lemma {:induction false} RowsAreIds(db: Db, rows: seq<Joined>, pool: nat, part: Joined -> bool, w: (nat, Note) -> int)
    requires forall i | 0 <= i < |rows| :: rows[i].id in db.notes && rows[i].note == db.notes[rows[i].id]
    requires forall i | 0 <= i < |rows| ::
               w(rows[i].id, rows[i].note) ==
                 if rows[i].note.cols.pool == pool && part(rows[i]) then rows[i].note.cols.value else 0
    ensures forall i | 0 <= i < |rows| :: Ids(rows)[i] in db.notes
    ensures ValueWhere(rows, pool, part) == SumIds(Ids(rows), db.notes, w)
  {
    if rows != [] {
      var front := rows[..|rows| - 1];
      RowsAreIds(db, front, pool, part, w);
      assert Ids(rows) == Ids(front) + [rows[|rows| - 1].id];
      assert Ids(rows)[..|rows| - 1] == Ids(front);
    }
  }

  lemma WeightsOfRows(db: Db, account: nat, rows: seq<Joined>, pool: nat, part: Joined -> bool, p: Note -> bool)
    requires forall i | 0 <= i < |rows| :: Unspent(db, account, rows[i].id) && rows[i].note == db.notes[rows[i].id]
    requires forall i | 0 <= i < |rows| :: part(rows[i]) <==> p(rows[i].note)
    ensures forall i | 0 <= i < |rows| ::
              UnspentIf(db, account, pool, p)(rows[i].id, rows[i].note) ==
                if rows[i].note.cols.pool == pool && part(rows[i]) then rows[i].note.cols.value else 0
    ensures forall k | k in db.notes && !Unspent(db, account, k) :: UnspentIf(db, account, pool, p)(k, db.notes[k]) == 0
  {
  }

  /** A part of the join that can be told by the note alone, as a sum over the notes of the database. */
  lemma PartIsSum(db: Db, reservations: Table<Reservation>, account: nat, rows: seq<Joined>, pool: nat,
          part: Joined -> bool, p: Note -> bool)
    requires JoinedOnce(db, reservations, account, rows)
    requires forall i | 0 <= i < |rows| :: part(rows[i]) <==> p(rows[i].note)
    ensures ValueWhere(rows, pool, part) == Sum(db.notes, UnspentIf(db, account, pool, p))
  {
    JoinedParts(db, reservations, account, rows);
    hide *;
    WeightsOfRows(db, account, rows, pool, part, p);
    RowsAreIds(db, rows, pool, part, UnspentIf(db, account, pool, p));
    SumListed(Ids(rows), db.notes, UnspentIf(db, account, pool, p));
  }

  // ---------------------------------------------------------------------
  // What the parts are
  // ---------------------------------------------------------------------

  /** Confirmed, not locked, and no active reservation names it. */
  ghost function FreeNote(db: Db, reservations: Table<Reservation>, cutoff: nat): Note -> bool {
    (n: Note) => n.cols.height <= cutoff && !n.cols.locked
                 && forall k | k in reservations :: !Holds(db, reservations[k], n)
  }

  ghost function HeldNote(db: Db, reservations: Table<Reservation>, cutoff: nat): Note -> bool {
    (n: Note) => n.cols.height <= cutoff
                 && (n.cols.locked || exists k :: k in reservations && Holds(db, reservations[k], n))
  }

  ghost function ChangeNote(cutoff: nat): Note -> bool {
    (n: Note) => n.cols.height > cutoff && n.cols.scope == Some(1)
  }

  ghost function IncomingNote(cutoff: nat): Note -> bool {
    (n: Note) => n.cols.height > cutoff && n.cols.scope != Some(1)
  }

  /** The four parts, as sums over the notes of the database. */
  lemma PartsMean(db: Db, reservations: Table<Reservation>, account: nat, rows: seq<Joined>, pool: nat, cutoff: nat)
    requires JoinedOnce(db, reservations, account, rows)
    ensures var b := SplitOf(rows, pool, cutoff);
            && b.available == Sum(db.notes, UnspentIf(db, account, pool, FreeNote(db, reservations, cutoff)))
            && b.locked == Sum(db.notes, UnspentIf(db, account, pool, HeldNote(db, reservations, cutoff)))
            && b.changePending == Sum(db.notes, UnspentIf(db, account, pool, ChangeNote(cutoff)))
            && b.valuePending == Sum(db.notes, UnspentIf(db, account, pool, IncomingNote(cutoff)))
  {
    forall i | 0 <= i < |rows|
      ensures AvailableAt(cutoff)(rows[i]) <==> FreeNote(db, reservations, cutoff)(rows[i].note)
      ensures LockedAt(cutoff)(rows[i]) <==> HeldNote(db, reservations, cutoff)(rows[i].note)
      ensures ChangeAt(cutoff)(rows[i]) <==> ChangeNote(cutoff)(rows[i].note)
      ensures IncomingAt(cutoff)(rows[i]) <==> IncomingNote(cutoff)(rows[i].note)
    {
      assert rows[i].reserved <==> Reserved(db, reservations, rows[i].note);
      hide Active, Holds;
    }
    hide JoinedOnce, Sum, ValueWhere, UnspentIf, FreeNote, HeldNote, ChangeNote, IncomingNote, AvailableAt, LockedAt,
         ChangeAt, IncomingAt;
    PartIsSum(db, reservations, account, rows, pool, AvailableAt(cutoff), FreeNote(db, reservations, cutoff));
    PartIsSum(db, reservations, account, rows, pool, LockedAt(cutoff), HeldNote(db, reservations, cutoff));
    PartIsSum(db, reservations, account, rows, pool, ChangeAt(cutoff), ChangeNote(cutoff));
    PartIsSum(db, reservations, account, rows, pool, IncomingAt(cutoff), IncomingNote(cutoff));
  }

  /** What a new reservation of a note moves: its value if it was available and the reservation is in force. */
  ghost function Moved(db: Db, reservations: Table<Reservation>, r: Reservation, pool: nat, cutoff: nat, n: Note): int {
    if n.cols.pool == pool && FreeNote(db, reservations, cutoff)(n) && Active(db, r) then n.cols.value else 0
  }

  /**
   One more reservation moves exactly the value of the note it names from available to locked; one
   that has expired moves nothing.
   */
  lemma ReservingMoves(db: Db, reservations: Table<Reservation>, id: nat, r: Reservation, k: nat, account: nat,
          rows: seq<Joined>, rows': seq<Joined>, pool: nat, cutoff: nat)
    requires Unique(db.notes, NoteKey) && id !in reservations && JoinedOnce(db, reservations, account, rows)
    requires JoinedOnce(db, reservations[id := r], account, rows')
    requires k in db.notes && Unspent(db, account, k) && ReservationKey(r) == NoteKey(db.notes[k])
    ensures var b, v := SplitOf(rows, pool, cutoff), Moved(db, reservations, r, pool, cutoff, db.notes[k]);
            SplitOf(rows', pool, cutoff) ==
              PoolBalance(b.available - v, b.locked + v, b.changePending, b.valuePending)
  {
    var more := reservations[id := r];
    hide *;
    PartsMean(db, reservations, account, rows, pool, cutoff);
    PartsMean(db, more, account, rows', pool, cutoff);
    WeightsMove(db, reservations, id, r, k, account, pool, cutoff);
    SumDiffers(db.notes, UnspentIf(db, account, pool, FreeNote(db, reservations, cutoff)),
        UnspentIf(db, account, pool, FreeNote(db, more, cutoff)), k);
    SumDiffers(db.notes, UnspentIf(db, account, pool, HeldNote(db, reservations, cutoff)),
        UnspentIf(db, account, pool, HeldNote(db, more, cutoff)), k);
  }

  lemma WeightsMove(db: Db, reservations: Table<Reservation>, id: nat, r: Reservation, k: nat, account: nat,
          pool: nat, cutoff: nat)
    requires Unique(db.notes, NoteKey) && id !in reservations && Unspent(db, account, k)
    requires k in db.notes && ReservationKey(r) == NoteKey(db.notes[k])
    ensures k in db.notes
    ensures var free := UnspentIf(db, account, pool, FreeNote(db, reservations, cutoff));
            var free' := UnspentIf(db, account, pool, FreeNote(db, reservations[id := r], cutoff));
            var v := Moved(db, reservations, r, pool, cutoff, db.notes[k]);
            free'(k, db.notes[k]) == free(k, db.notes[k]) - v
            && forall j | j in db.notes && j != k :: free(j, db.notes[j]) == free'(j, db.notes[j])
    ensures var held := UnspentIf(db, account, pool, HeldNote(db, reservations, cutoff));
            var held' := UnspentIf(db, account, pool, HeldNote(db, reservations[id := r], cutoff));
            var v := Moved(db, reservations, r, pool, cutoff, db.notes[k]);
            held'(k, db.notes[k]) == held(k, db.notes[k]) + v
            && forall j | j in db.notes && j != k :: held(j, db.notes[j]) == held'(j, db.notes[j])
  {
    OnlyOneHeld(db, r, k);
    HoldsMore(db, reservations, id, r, cutoff);
    hide Holds, FreeNote, HeldNote, Active;
  }

  lemma OnlyOneHeld(db: Db, r: Reservation, k: nat)
    requires Unique(db.notes, NoteKey) && k in db.notes && ReservationKey(r) == NoteKey(db.notes[k])
    ensures forall j | j in db.notes :: Holds(db, r, db.notes[j]) <==> j == k && Active(db, r)
  {
    hide Active;
    forall j | j in db.notes && Holds(db, r, db.notes[j])
      ensures j == k
    {
      assert NoteKey(db.notes[j]) == NoteKey(db.notes[k]);
    }
  }

  lemma HoldsMore(db: Db, reservations: Table<Reservation>, id: nat, r: Reservation, cutoff: nat)
    requires id !in reservations
    ensures forall n: Note ::
              FreeNote(db, reservations[id := r], cutoff)(n) <==>
              FreeNote(db, reservations, cutoff)(n) && !Holds(db, r, n)
    ensures forall n: Note ::
              HeldNote(db, reservations[id := r], cutoff)(n) <==>
              HeldNote(db, reservations, cutoff)(n) || (n.cols.height <= cutoff && Holds(db, r, n))
    ensures forall n: Note ::
              FreeNote(db, reservations, cutoff)(n) <==>
              n.cols.height <= cutoff && !HeldNote(db, reservations, cutoff)(n)
  {
    hide Holds;
    var more := reservations[id := r];
    assert more[id] == r && forall k | k in reservations :: k in more && more[k] == reservations[k];
  }

  /** All blocks fit the 32-bit heights the columns hold. */
  ghost predicate HeightsFit(db: Db) {
    (forall k | k in db.notes :: db.notes[k].cols.height <= MAX_HEIGHT)
    && (forall k | k in db.spends :: db.spends[k].height <= MAX_HEIGHT)
  }

  /**
   The four parts add up to the ledger: whatever the confirmations, reservations
   and scopes, no unspent note is missed and none is counted twice.
   */
  lemma PartitionIsBalance(db: Db, reservations: Table<Reservation>, account: nat, rows: seq<Joined>, pool: nat,
          cutoff: nat)
    requires Intact(db) && HeightsFit(db) && JoinedOnce(db, reservations, account, rows)
    ensures Total(SplitOf(rows, pool, cutoff)) == Balance(db, account, pool, None)
  {
    hide *;
    PartsAddUp(rows, pool, cutoff);
    LedgerCancels(db, account, pool, MAX_HEIGHT);
    BalanceIs(db, account, pool, None);
    assert Limit(None) == MAX_HEIGHT by { NoLimit(); }
    UnspentIsRemaining(db, account, pool);
    AllRows(db, reservations, account, rows, pool);
    SumSame(db.notes, UnspentWeight(db, account, pool), Remaining(db, account, pool, MAX_HEIGHT));
  }

  lemma AllRows(db: Db, reservations: Table<Reservation>, account: nat, rows: seq<Joined>, pool: nat)
    requires JoinedOnce(db, reservations, account, rows)
    ensures ValueWhere(rows, pool, Any()) == Sum(db.notes, UnspentWeight(db, account, pool))
  {
    hide JoinedOnce, Sum, ValueWhere;
    var every := (n: Note) => true;
    PartIsSum(db, reservations, account, rows, pool, Any(), every);
    SumSame(db.notes, UnspentIf(db, account, pool, every), UnspentWeight(db, account, pool));
  }

  lemma NoLimit()
    ensures Limit(None) == MAX_HEIGHT
  {
  }

  lemma JoinedParts(db: Db, reservations: Table<Reservation>, account: nat, rows: seq<Joined>)
    requires JoinedOnce(db, reservations, account, rows)
    ensures forall i | 0 <= i < |Ids(rows)| :: Ids(rows)[i] in db.notes
    ensures NoDup(Ids(rows)) && forall k | Unspent(db, account, k) :: k in Ids(rows)
    ensures forall i | 0 <= i < |rows| ::
              Unspent(db, account, rows[i].id) && rows[i].id in db.notes && rows[i].note == db.notes[rows[i].id]
  {
    hide Reserved;
  }

  lemma UnspentIsRemaining(db: Db, account: nat, pool: nat)
    requires HeightsFit(db)
    ensures forall k | k in db.notes ::
              UnspentWeight(db, account, pool)(k, db.notes[k]) ==
                Remaining(db, account, pool, MAX_HEIGHT)(k, db.notes[k])
  {
    forall k | k in db.notes
      ensures UnspentWeight(db, account, pool)(k, db.notes[k]) ==
                Remaining(db, account, pool, MAX_HEIGHT)(k, db.notes[k])
    {
      var n := db.notes[k];
      assert NoteWeight(account, pool, MAX_HEIGHT)(k, n) == if n.account == account && n.asset == None
             && n.cols.pool == pool then n.cols.value else 0;
    }
  }

  ghost predicate RowsPositive(rows: seq<Joined>) {
    forall i | 0 <= i < |rows| :: 0 <= rows[i].note.cols.value
  }

  /** More confirmations move value from the confirmed parts to the pending ones, never the other way. */
  lemma {:induction false} MoreConfirmations(rows: seq<Joined>, pool: nat, low: nat, high: nat)
    requires low <= high && RowsPositive(rows)
    ensures SplitOf(rows, pool, low).available <= SplitOf(rows, pool, high).available
    ensures SplitOf(rows, pool, low).locked <= SplitOf(rows, pool, high).locked
    ensures SplitOf(rows, pool, low).changePending >= SplitOf(rows, pool, high).changePending
    ensures SplitOf(rows, pool, low).valuePending >= SplitOf(rows, pool, high).valuePending
  {
    if rows != [] {
      assert RowsPositive(rows[..|rows| - 1]);
      MoreConfirmations(rows[..|rows| - 1], pool, low, high);
    }
  }

  lemma MoreConfirmationsLowerCutoff(synced: Option<nat>, fewer: nat, more: nat)
    requires fewer <= more
    ensures Cutoff(synced, more) <= Cutoff(synced, fewer)
  {
  }

  /** A block counts as confirmed exactly when every pool has scanned `confirmations` blocks beyond it. */
  lemma ConfirmedIff(db: Db, account: nat, confirmations: nat, height: nat)
    requires height > 0
    ensures height <= Cutoff(Synced(db, account), confirmations) <==>
            && (exists k :: k in db.syncHeights && k.0 == account)
            && forall k | k in db.syncHeights && k.0 == account :: height + confirmations <= db.syncHeights[k]
  {
    SyncedBounds(db, account);
  }
}
