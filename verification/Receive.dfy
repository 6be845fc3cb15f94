/**
 Choosing transparent addresses: the lowest unused receive address, and the
 allocator that races for the next index.
 */
module Receive {
  import opened Wrappers
  import opened Tables
  import opened Schema
  import opened Decimals
  import opened Coverage

  const HARDENED: nat := 0x8000_0000

  /** The address of a scope and an index, for the compressed or the uncompressed public key. */
  type Derivation = (nat, nat, bool) -> string

  datatype AddressRow = AddressRow(account: nat, scope: nat, dindex: nat, address: string, uncompressed: bool,
          seenUsed: bool)

  function RowKey(r: AddressRow): (nat, nat, nat) { (r.account, r.scope, r.dindex) }

  /** `transparent_address_is_used`: the row was seen used, or a note or the spend of one names it. */
  predicate IsUsed(rows: Table<AddressRow>, notes: Table<Note>, spends: Table<Spend>, account: nat, address: string) {
    exists id :: id in rows && rows[id].account == account && rows[id].address == address
                 && (rows[id].seenUsed
                     || (exists n :: n in notes && notes[n].account == account && notes[n].taddress == Some(id)
                                     && (notes[n].cols.pool == 0
                                         || (n in spends && spends[n].account == notes[n].account
                                         && spends[n].pool == 0))))
  }

  /**
   Derivation never gives two indices, or two forms of a key, the same address, and each row
   holds one of the two addresses of its own index; its flag need not say which, since a
   restored row loses it.
   */
  ghost predicate Derives(rows: Table<AddressRow>, account: nat, derive: Derivation) {
    && (forall s, d, u, s', d', u' | derive(s, d, u) == derive(s', d', u') :: s == s' && d == d' && u == u')
    && (forall id | id in rows && rows[id].account == account :: exists u :: HoldsForm(rows[id], derive, u))
  }

  predicate HoldsForm(r: AddressRow, derive: Derivation, uncompressed: bool) {
    r.address == derive(r.scope, r.dindex, uncompressed)
  }

  /** Neither used nor excluded. */
  predicate Free(rows: Table<AddressRow>, notes: Table<Note>, spends: Table<Spend>, account: nat, derive: Derivation,
          excluded: seq<string>, d: nat) {
    derive(0, d, false) !in excluded && !IsUsed(rows, notes, spends, account, derive(0, d, false))
  }

  ghost predicate LeastFree(rows: Table<AddressRow>, notes: Table<Note>, spends: Table<Spend>, account: nat,
          derive: Derivation, excluded: seq<string>, d: nat) {
    && Free(rows, notes, spends, account, derive, excluded, d)
    && forall e: nat | e < d :: !Free(rows, notes, spends, account, derive, excluded, e)
  }

  /** One above the highest stored index of a scope. */
  function NextIndex(rows: Table<AddressRow>, account: nat, scope: nat): (next: nat)
    ensures forall id | id in rows && rows[id].account == account && rows[id].scope == scope :: rows[id].dindex < next
    ensures next > 0 ==>
              exists id ::
                id in rows && rows[id].account == account && rows[id].scope == scope && rows[id].dindex == next - 1
  {
    var indices := set id | id in rows && rows[id].account == account && rows[id].scope == scope :: rows[id].dindex;
    assert forall id | id in rows && rows[id].account == account && rows[id].scope == scope ::
             rows[id].dindex in indices;
    NextAbove(indices)
  }

  ghost predicate HasRow(rows: Table<AddressRow>, key: (nat, nat, nat)) {
    exists id :: id in rows && RowKey(rows[id]) == key
  }

  datatype NextUnused =
    | NoKey
    | Chosen(dindex: nat, address: string, coverage: TransparentCoverage)
    /** An index that non-hardened derivation does not accept. */
    | IndexTooLarge
    /** The error behind the loop. */
    | Exhausted

  // ---------------------------------------------------------------------
  // The pigeonhole argument
  // ---------------------------------------------------------------------

  lemma UsedIsStored(rows: Table<AddressRow>, notes: Table<Note>, spends: Table<Spend>, account: nat,
          derive: Derivation, d: nat)
    requires Derives(rows, account, derive) && IsUsed(rows, notes, spends, account, derive(0, d, false))
    ensures d < NextIndex(rows, account, 0)
  {
    var id :| id in rows && rows[id].account == account && rows[id].address == derive(0, d, false);
    var u :| HoldsForm(rows[id], derive, u);
    assert rows[id].scope == 0 && rows[id].dindex == d;
  }

  function Addresses(derive: Derivation, from: nat, count: nat): set<string>
    decreases count
  {
    if count == 0 then {} else Addresses(derive, from, count - 1) + {derive(0, from + count - 1, false)}
  }

  ghost predicate OneIndexEach(derive: Derivation) {
    forall d, d' | derive(0, d, false) == derive(0, d', false) :: d == d'
  }

  lemma {:induction false} AddressesAre(derive: Derivation, from: nat, count: nat, a: string)
    ensures a in Addresses(derive, from, count) <==>
              exists d: nat :: from <= d < from + count && a == derive(0, d, false)
    decreases count
  {
    if count > 0 {
      AddressesAre(derive, from, count - 1, a);
      if a == derive(0, from + count - 1, false) {
        assert from <= from + count - 1 < from + count;
      }
    }
  }

  lemma {:induction false} AddressesDistinct(derive: Derivation, from: nat, count: nat)
    requires OneIndexEach(derive)
    ensures |Addresses(derive, from, count)| == count
    decreases count
  {
    if count > 0 {
      AddressesDistinct(derive, from, count - 1);
      AddressesAre(derive, from, count - 1, derive(0, from + count - 1, false));
    }
  }

  function Elements(s: seq<string>): (r: set<string>)
    ensures |r| <= |s| && forall x :: x in r <==> x in s
  {
    if s == [] then {}
    else
      var r := Elements(s[..|s| - 1]);
      assert forall x | x in s :: x in s[..|s| - 1] || x == s[|s| - 1];
      r + {s[|s| - 1]}
  }

  /** Among |excluded| + 1 indices above every stored one, some address is free. */
  lemma Pigeonhole(rows: Table<AddressRow>, notes: Table<Note>, spends: Table<Spend>, account: nat,
          derive: Derivation, excluded: seq<string>)
    returns (d: nat)
    requires Derives(rows, account, derive)
    ensures d <= NextIndex(rows, account, 0) + |excluded| && Free(rows, notes, spends, account, derive, excluded, d)
  {
    var from, count := NextIndex(rows, account, 0), |excluded| + 1;
    AddressesDistinct(derive, from, count);
    var all, taken := Addresses(derive, from, count), Elements(excluded);
    var a := SomeLeft(all, taken);
    AddressesAre(derive, from, count, a);
    d :| from <= d < from + count && a == derive(0, d, false);
    if IsUsed(rows, notes, spends, account, a) {
      UsedIsStored(rows, notes, spends, account, derive, d);
    }
  }

  lemma SomeLeft(a: set<string>, b: set<string>) returns (x: string)
    requires |a| > |b|
    ensures x in a && x !in b
  {
    if forall y | y in a :: y in b {
      Subsets(a, b);
    }
    x :| x in a && x !in b;
  }

  lemma {:induction false} Subsets(a: set<string>, b: set<string>)
    requires a <= b
    ensures |a| <= |b|
  {
    if a != {} {
      var x :| x in a;
      Subsets(a - {x}, b - {x});
    }
  }

  lemma {:induction false} LeastBelow(rows: Table<AddressRow>, notes: Table<Note>, spends: Table<Spend>,
          account: nat, derive: Derivation,
                   excluded: seq<string>, d: nat) returns (least: nat)
    requires Free(rows, notes, spends, account, derive, excluded, d)
    ensures least <= d && LeastFree(rows, notes, spends, account, derive, excluded, least)
  {
    if e: nat :| e < d && Free(rows, notes, spends, account, derive, excluded, e) {
      least := LeastBelow(rows, notes, spends, account, derive, excluded, e);
    } else {
      least := d;
    }
  }

  // ---------------------------------------------------------------------
  // The selector
  // ---------------------------------------------------------------------

  /** The last candidate, in 32-bit arithmetic. */
  function LastCandidate(rows: Table<AddressRow>, account: nat, excluded: seq<string>): nat {
    (NextIndex(rows, account, 0) + |excluded|) % U32_LIMIT
  }

  /**
   Below the 32-bit wrap the loop never runs out: a free index exists at or below
   the last candidate, so a least one does, and the search fails only if that one is
   not derivable.
   */
  lemma SelectorNeverExhausted(rows: Table<AddressRow>, notes: Table<Note>, spends: Table<Spend>, account: nat,
          derive: Derivation, excluded: seq<string>)
    returns (d: nat)
    requires Derives(rows, account, derive) && NextIndex(rows, account, 0) + |excluded| < U32_LIMIT
    ensures d <= LastCandidate(rows, account, excluded) && LeastFree(rows, notes, spends, account, derive, excluded, d)
  {
    var f := Pigeonhole(rows, notes, spends, account, derive, excluded);
    d := LeastBelow(rows, notes, spends, account, derive, excluded, f);
  }

  lemma SomeFree(rows: Table<AddressRow>, notes: Table<Note>, spends: Table<Spend>, account: nat, derive: Derivation,
          excluded: seq<string>)
    ensures Derives(rows, account, derive) && NextIndex(rows, account, 0) + |excluded| < U32_LIMIT ==>
              exists d: nat ::
                d <= LastCandidate(rows, account, excluded) && Free(rows, notes, spends, account, derive, excluded, d)
  {
    if Derives(rows, account, derive) && NextIndex(rows, account, 0) + |excluded| < U32_LIMIT {
      var d := SelectorNeverExhausted(rows, notes, spends, account, derive, excluded);
    }
  }

  /** A row for the compressed key of an index keeps the table derived. */
  lemma StaysDerived(rows: Table<AddressRow>, account: nat, derive: Derivation, d: nat)
    ensures Derives(rows, account, derive) ==>
              Derives(Append(rows, [AddressRow(account, 0, d, derive(0, d, false), false, false)]), account, derive)
  {
    var row := AddressRow(account, 0, d, derive(0, d, false), false, false);
    assert HoldsForm(row, derive, false);
    forall id | id in Append(rows, [row])
      ensures Append(rows, [row])[id] == if id in rows then rows[id] else row
    {
      AppendAt(rows, [row], id);
    }
  }

  /** Marked as seen used, paid on the transparent chain, or named by a note spent there. */
  ghost predicate Touched(rows: Table<AddressRow>, notes: Table<Note>, spends: Table<Spend>, account: nat, id: nat)
    requires id in rows
  {
    || rows[id].seenUsed
    || (exists n ::
         n in notes && notes[n].account == account && notes[n].taddress == Some(id) && notes[n].cols.pool == 0)
    || (exists n :: n in notes && notes[n].account == account && notes[n].taddress == Some(id)
                    && n in spends && spends[n].account == account && spends[n].pool == 0)
  }

  lemma UsedIff(rows: Table<AddressRow>, notes: Table<Note>, spends: Table<Spend>, account: nat, a: string)
    ensures IsUsed(rows, notes, spends, account, a) <==>
            exists id :: id in rows && rows[id].account == account && rows[id].address == a
                         && Touched(rows, notes, spends, account, id)
  {
  }

  /** No row that holds the address has been touched. */
  ghost predicate NothingTouched(rows: Table<AddressRow>, notes: Table<Note>, spends: Table<Spend>, account: nat,
          a: string) {
    forall id | id in rows && rows[id].account == account && rows[id].address == a ::
      !Touched(rows, notes, spends, account, id)
  }

  /** Every address a note names is stored. */
  ghost predicate NamesStored(rows: Table<AddressRow>, notes: Table<Note>) {
    forall n | n in notes && notes[n].taddress.Some? :: notes[n].taddress.value in rows
  }

  ghost predicate SameUsed(rows: Table<AddressRow>, rows': Table<AddressRow>, notes: Table<Note>, spends: Table<Spend>,
          account: nat) {
    forall a :: IsUsed(rows, notes, spends, account, a) <==> IsUsed(rows', notes, spends, account, a)
  }

  /** Storing an address does not use it. */
  lemma FreshIsUnused(rows: Table<AddressRow>, notes: Table<Note>, spends: Table<Spend>, account: nat, row: AddressRow)
    requires !row.seenUsed
    ensures NamesStored(rows, notes) ==> SameUsed(rows, Append(rows, [row]), notes, spends, account)
    ensures SameUsed(rows, rows, notes, spends, account)
  {
    if NamesStored(rows, notes) {
      forall a
        ensures IsUsed(rows, notes, spends, account, a) <==> IsUsed(Append(rows, [row]), notes, spends, account, a)
      {
        UsedUnchanged(rows, notes, spends, account, row, a);
      }
    }
  }

  lemma UsedUnchanged(rows: Table<AddressRow>, notes: Table<Note>, spends: Table<Spend>, account: nat, row: AddressRow,
          a: string)
    requires !row.seenUsed && NamesStored(rows, notes)
    ensures IsUsed(rows, notes, spends, account, a) <==> IsUsed(Append(rows, [row]), notes, spends, account, a)
  {
    var rows' := Append(rows, [row]);
    UsedIff(rows, notes, spends, account, a);
    UsedIff(rows', notes, spends, account, a);
    hide IsUsed;
    forall id | id in rows'
      ensures id in rows ==> rows'[id] == rows[id]
      ensures id !in rows ==> !Touched(rows', notes, spends, account, id)
    {
      AppendAt(rows, [row], id);
    }
  }

  lemma SameLeast(rows: Table<AddressRow>, rows': Table<AddressRow>, notes: Table<Note>, spends: Table<Spend>,
          account: nat, derive: Derivation, excluded: seq<string>, d: nat)
    requires SameUsed(rows, rows', notes, spends, account)
    ensures LeastFree(rows, notes, spends, account, derive, excluded, d) <==>
            LeastFree(rows', notes, spends, account, derive, excluded, d)
  {
    hide IsUsed;
    forall e: nat
      ensures Free(rows, notes, spends, account, derive, excluded, e) <==>
              Free(rows', notes, spends, account, derive, excluded, e)
    {
    }
  }

  class AddressBook {
    var rows: Table<AddressRow>
    var notes: Table<Note>
    var spends: Table<Spend>
    var props: map<string, string>

    method StoreTransparentAddr(account: nat, scope: nat, dindex: nat, address: string) returns (stored: bool)
      modifies this`rows
      ensures stored <==> forall id | id in old(rows) :: RowKey(old(rows)[id]) != (account, scope, dindex)
      ensures rows == if stored then Append(old(rows), [AddressRow(account, scope, dindex, address, false, false)])
                else old(rows)
      ensures HasRow(rows, (account, scope, dindex))
    {
      var row := AddressRow(account, scope, dindex, address, false, false);
      var ok, rows', id := InsertUnique(rows, RowKey, row);
      ghost var was := rows;
      rows := rows';
      stored := ok;
      if ok {
        assert rows[NextId(was) + 0] == row;
      } else {
        var k :| k in rows && RowKey(rows[k]) == RowKey(row);
      }
    }

    /** Makes sure that the chosen index has a row. */
    method StoreChosen(account: nat, derive: Derivation, dindex: nat)
      modifies this`rows
      ensures Extends(old(rows), rows) && HasRow(rows, (account, 0, dindex))
      ensures Derives(old(rows), account, derive) ==> Derives(rows, account, derive)
      ensures NamesStored(old(rows), notes) ==> SameUsed(old(rows), rows, notes, spends, account)
    {
      hide Derives, IsUsed;
      StaysDerived(rows, account, derive, dindex);
      FreshIsUnused(rows, notes, spends, account,
          AddressRow(account, 0, dindex, derive(0, dindex, false), false, false));
      var stored := StoreTransparentAddr(account, 0, dindex, derive(0, dindex, false));
    }

    method NextUnusedReceiveAddress(account: nat, hasKey: bool, derive: Derivation, excluded: seq<string>)
      returns (r: NextUnused)
      modifies this`rows
      ensures r.NoKey? <==> !hasKey
      ensures r.Chosen? ==>
        && LeastFree(old(rows), notes, spends, account, derive, excluded, r.dindex)
        && r.dindex < HARDENED && r.dindex <= LastCandidate(old(rows), account, excluded)
        && r.address == derive(0, r.dindex, false) && r.coverage == ReadCoverage(props, account)
        && Extends(old(rows), rows)
        && HasRow(rows, (account, 0, r.dindex))
      ensures r.Chosen? ==> r.address !in excluded && NothingTouched(old(rows), notes, spends, account, r.address)
      ensures r.Chosen? && NamesStored(old(rows), notes) ==>
        LeastFree(rows, notes, spends, account, derive, excluded, r.dindex)
      ensures r.IndexTooLarge? || r.Exhausted? ==>
        rows == old(rows) && forall d: nat | d < HARDENED && d <= LastCandidate(rows, account, excluded) ::
          !Free(rows, notes, spends, account, derive, excluded, d)
      ensures r.Exhausted? ==> LastCandidate(rows, account, excluded) < HARDENED
      ensures r.IndexTooLarge? ==> HARDENED <= LastCandidate(rows, account, excluded)
      ensures r.NoKey? ==> rows == old(rows)
      ensures Derives(old(rows), account, derive) ==> Derives(rows, account, derive)
      ensures Derives(old(rows), account, derive) && NextIndex(old(rows), account, 0) + |excluded| < U32_LIMIT ==>
        !r.Exhausted? && (hasKey && LastCandidate(old(rows), account, excluded) < HARDENED ==> r.Chosen?)
    {
      hide Derives, IsUsed, HasRow;
      if !hasKey {
        return NoKey;
      }
      var last := LastCandidate(rows, account, excluded);
      var dindex := 0;
      while dindex <= last
        invariant dindex <= last + 1 && dindex <= HARDENED && rows == old(rows)
        invariant forall e: nat | e < dindex :: !Free(rows, notes, spends, account, derive, excluded, e)
      {
        if dindex >= HARDENED {
          return IndexTooLarge;
        }
        var address := derive(0, dindex, false);
        if address !in excluded && !IsUsed(rows, notes, spends, account, address) {
          UsedIff(rows, notes, spends, account, address);
          StoreChosen(account, derive, dindex);
          if NamesStored(old(rows), notes) {
            SameLeast(old(rows), rows, notes, spends, account, derive, excluded, dindex);
          }
          return Chosen(dindex, address, ReadCoverage(props, account));
        }
        dindex := dindex + 1;
      }
      SomeFree(rows, notes, spends, account, derive, excluded);
      return Exhausted;
    }
  }

  /** Using or excluding more never lowers the answer. */
  lemma MoreTakenNeverLowers(rows: Table<AddressRow>, notes: Table<Note>, spends: Table<Spend>,
          excluded: seq<string>, d: nat,
                             rows': Table<AddressRow>, notes': Table<Note>, spends': Table<Spend>,
                                 excluded': seq<string>, d': nat,
                             account: nat, derive: Derivation)
    requires LeastFree(rows, notes, spends, account, derive, excluded, d)
    requires LeastFree(rows', notes', spends', account, derive, excluded', d')
    requires forall a | IsUsed(rows, notes, spends, account, a) :: IsUsed(rows', notes', spends', account, a)
    requires forall a | a in excluded :: a in excluded'
    ensures d <= d'
  {
    assert Free(rows, notes, spends, account, derive, excluded, d');
  }

  /** Rows keep their place and address and are never unmarked; notes and spends are only added. */
  ghost predicate Grown(rows: Table<AddressRow>, notes: Table<Note>, spends: Table<Spend>, rows': Table<AddressRow>,
          notes': Table<Note>, spends': Table<Spend>) {
    && (forall id | id in rows :: id in rows' && rows'[id].account == rows[id].account
                                  && rows'[id].address == rows[id].address
                                  && (rows[id].seenUsed ==> rows'[id].seenUsed))
    && Extends(notes, notes') && Extends(spends, spends')
  }

  lemma TouchedStays(rows: Table<AddressRow>, notes: Table<Note>, spends: Table<Spend>,
          rows': Table<AddressRow>, notes': Table<Note>, spends': Table<Spend>, account: nat, id: nat)
    requires Grown(rows, notes, spends, rows', notes', spends') && id in rows
             && Touched(rows, notes, spends, account, id)
    ensures id in rows' && Touched(rows', notes', spends', account, id)
  {
    if n :| n in notes && notes[n].account == account && notes[n].taddress == Some(id) && notes[n].cols.pool == 0 {
      assert n in notes' && notes'[n] == notes[n];
    } else if n :| n in notes && notes[n].account == account && notes[n].taddress == Some(id) && n in spends
                   && spends[n].account == account && spends[n].pool == 0 {
      assert n in notes' && notes'[n] == notes[n] && n in spends' && spends'[n] == spends[n];
    }
  }

  /**
   No reuse: once the address that was chosen has been touched, every later answer is strictly
   higher, whatever else was stored, paid or excluded in between.
   */
  lemma TouchedIsNotReused(rows: Table<AddressRow>, notes: Table<Note>, spends: Table<Spend>, excluded: seq<string>,
          d: nat, rows': Table<AddressRow>, notes': Table<Note>, spends': Table<Spend>, excluded': seq<string>, d': nat,
          account: nat, derive: Derivation, id: nat)
    requires LeastFree(rows, notes, spends, account, derive, excluded, d)
    requires LeastFree(rows', notes', spends', account, derive, excluded', d')
    requires Grown(rows, notes, spends, rows', notes', spends') && forall a | a in excluded :: a in excluded'
    requires id in rows' && rows'[id].account == account && rows'[id].address == derive(0, d, false)
    requires Touched(rows', notes', spends', account, id)
    ensures d < d'
  {
    forall a | IsUsed(rows, notes, spends, account, a)
      ensures IsUsed(rows', notes', spends', account, a)
    {
      UsedIff(rows, notes, spends, account, a);
      UsedIff(rows', notes', spends', account, a);
      var x :| x in rows && rows[x].account == account && rows[x].address == a
      && Touched(rows, notes, spends, account, x);
      TouchedStays(rows, notes, spends, rows', notes', spends', account, x);
    }
    UsedIff(rows', notes', spends', account, derive(0, d, false));
    hide IsUsed, Touched;
    MoreTakenNeverLowers(rows, notes, spends, excluded, d, rows', notes', spends', excluded', d', account, derive);
    assert IsUsed(rows', notes', spends', account, derive(0, d, false));
  }

  /** And nothing is skipped without a reason: an address of no touched row is free unless excluded. */
  lemma UntouchedIsFree(rows: Table<AddressRow>, notes: Table<Note>, spends: Table<Spend>, account: nat,
          derive: Derivation, excluded: seq<string>, d: nat)
    requires derive(0, d, false) !in excluded
    requires NothingTouched(rows, notes, spends, account, derive(0, d, false))
    ensures Free(rows, notes, spends, account, derive, excluded, d)
  {
  }

  /**
   The chosen index keeps a row it already has: that row holds the chosen address unless it is for
   the uncompressed key.
   */
  lemma RowHoldsChosenIff(rows: Table<AddressRow>, account: nat, derive: Derivation, id: nat, d: nat)
    requires Derives(rows, account, derive) && id in rows && RowKey(rows[id]) == (account, 0, d)
    ensures rows[id].address == derive(0, d, false) <==> rows[id].address != derive(0, d, true)
  {
    var u :| HoldsForm(rows[id], derive, u);
  }
}
