/**
 How much of the unspent notes a payment can spend once it has paid its own fee.
 */
module Fees {
  import opened Wrappers
  import opened Tables
  import opened Schema
  import opened Sums
  import opened Accounting
  import opened Spendable

  const COST_PER_ACTION: nat := 5000

  function SaturatingSub(a: int, b: int): int { if a > b then a - b else 0 }

  datatype PoolMask = PoolMask(bits: bv8) {
    predicate HasPool(pool: nat)
      requires pool < NUM_POOLS
    {
      bits & (1 << pool) != 0
    }
  }

  /** Bit 0 is the transparent pool, then Sapling, Orchard and Ironwood. */
  lemma PoolBits(mask: PoolMask)
    ensures mask.HasPool(0) <==> mask.bits & 0x1 != 0
    ensures mask.HasPool(1) <==> mask.bits & 0x2 != 0
    ensures mask.HasPool(2) <==> mask.bits & 0x4 != 0
    ensures mask.HasPool(3) <==> mask.bits & 0x8 != 0
  {
  }

  // ---------------------------------------------------------------------
  // The fee of a transaction
  // ---------------------------------------------------------------------

  datatype FeeManager = FeeManager(numInputs: seq<nat>, numOutputs: seq<nat>, migration: bool) {
    predicate Valid() { |numInputs| == NUM_POOLS && |numOutputs| == NUM_POOLS }

    /** A shielded bundle that is there at all is padded to two actions. */
    function Bundle(pool: nat): nat
      requires Valid() && pool < NUM_POOLS
    {
      if numInputs[pool] > 0 || numOutputs[pool] > 0 then Max(Max(numInputs[pool], numOutputs[pool]), 2) else 0
    }

    function LogicalActions(): nat
      requires Valid()
    {
      var t := Max(numInputs[0], numOutputs[0]);
      var o := if migration
      && (numInputs[2] > 0 || numOutputs[2] > 0) then Max(numInputs[2] + numOutputs[2], 2) else Bundle(2);
      t + Bundle(1) + o + Bundle(3)
    }

    function Fee(): nat
      requires Valid()
    {
      Max(LogicalActions(), 2) * COST_PER_ACTION
    }
  }

  /**
   `a` actions carry what bundle `pool` has to do: one input and one output each, or only one of them
   in an Orchard bundle that migrates; a shielded bundle has two actions or none.
   */
  predicate Carries(f: FeeManager, pool: nat, a: nat)
    requires f.Valid() && pool < NUM_POOLS
  {
    && f.numInputs[pool] <= a && f.numOutputs[pool] <= a
    && (f.migration && pool == 2 ==> f.numInputs[pool] + f.numOutputs[pool] <= a)
    && (pool != 0 ==> a != 1)
  }

  /** The fee of a transaction with these bundles; it pays for two actions at least. */
  function FeeOf(actions: seq<nat>): nat
    requires |actions| == NUM_POOLS
  {
    Max(actions[0] + actions[1] + actions[2] + actions[3], 2) * COST_PER_ACTION
  }

  /** What the fee formula takes for a bundle. */
  function ActionsOf(f: FeeManager, pool: nat): nat
    requires f.Valid() && pool < NUM_POOLS
  {
    if pool == 0 then Max(f.numInputs[0], f.numOutputs[0])
    else if f.migration && pool == 2 && (f.numInputs[2] > 0 || f.numOutputs[2] > 0)
    then Max(f.numInputs[2] + f.numOutputs[2], 2)
    else f.Bundle(pool)
  }

  lemma ActionsAreLeast(f: FeeManager, pool: nat)
    requires f.Valid() && pool < NUM_POOLS
    ensures Carries(f, pool, ActionsOf(f, pool)) && forall a: nat | Carries(f, pool, a) :: ActionsOf(f, pool) <= a
  {
  }

  lemma FeeOfActions(f: FeeManager)
    requires f.Valid()
    ensures f.Fee() == FeeOf([ActionsOf(f, 0), ActionsOf(f, 1), ActionsOf(f, 2), ActionsOf(f, 3)])
  {
    hide FeeManager.Bundle;
  }

  lemma FeeGrows(a: seq<nat>, b: seq<nat>)
    requires |a| == NUM_POOLS && |b| == NUM_POOLS && forall p: nat | p < NUM_POOLS :: a[p] <= b[p]
    ensures FeeOf(a) <= FeeOf(b)
  {
    var s, t := a[0] + a[1] + a[2] + a[3], b[0] + b[1] + b[2] + b[3];
    assert s <= t;
  }

  /** The fee is the lowest that any choice of actions able to carry the transaction costs. */
  lemma FeeIsLeast(f: FeeManager) returns (least: seq<nat>)
    requires f.Valid()
    ensures |least| == NUM_POOLS && (forall p: nat | p < NUM_POOLS :: Carries(f, p, least[p]))
    ensures f.Fee() == FeeOf(least)
    ensures forall a: seq<nat> | |a| == NUM_POOLS && (forall p: nat | p < NUM_POOLS :: Carries(f, p, a[p])) ::
              f.Fee() <= FeeOf(a)
  {
    least := [ActionsOf(f, 0), ActionsOf(f, 1), ActionsOf(f, 2), ActionsOf(f, 3)];
    FeeOfActions(f);
    hide FeeOf, ActionsOf, Carries, FeeManager.Fee;
    forall p: nat | p < NUM_POOLS
      ensures Carries(f, p, least[p])
    {
      ActionsAreLeast(f, p);
    }
    forall a: seq<nat> | |a| == NUM_POOLS && (forall p: nat | p < NUM_POOLS :: Carries(f, p, a[p]))
      ensures f.Fee() <= FeeOf(a)
    {
      forall p: nat | p < NUM_POOLS
        ensures least[p] <= a[p]
      {
        ActionsAreLeast(f, p);
      }
      FeeGrows(least, a);
    }
  }

  // ---------------------------------------------------------------------
  // GROUP BY pool
  // ---------------------------------------------------------------------

  datatype Group = Group(pool: nat, value: int, count: nat)

  function CountIn(rows: seq<Joined>, pool: nat): nat {
    if rows == [] then 0
    else CountIn(rows[..|rows| - 1], pool) + if rows[|rows| - 1].note.cols.pool == pool then 1 else 0
  }

  function ValueIn(rows: seq<Joined>, pool: nat): int { ValueWhere(rows, pool, Any()) }

  ghost predicate Grouped(rows: seq<Joined>, groups: seq<Group>) {
    && (forall i | 0 <= i < |groups| :: groups[i].pool < NUM_POOLS && groups[i].count > 0
                                        && groups[i].value == ValueIn(rows, groups[i].pool)
                                        && groups[i].count == CountIn(rows, groups[i].pool))
    && (forall i, j | 0 <= i < j < |groups| :: groups[i].pool != groups[j].pool)
    && (forall p: nat | p < NUM_POOLS && CountIn(rows, p) > 0 :: exists i :: 0 <= i < |groups| && groups[i].pool == p)
  }

  lemma {:induction false} NothingCounted(rows: seq<Joined>, pool: nat)
    requires CountIn(rows, pool) == 0
    ensures ValueIn(rows, pool) == 0
  {
    if rows != [] {
      NothingCounted(rows[..|rows| - 1], pool);
    }
  }

  // ---------------------------------------------------------------------
  // The maximum
  // ---------------------------------------------------------------------

  /** The WHERE clause: available, and worth at least the action that spends it. */
  function Counted(rows: seq<Joined>, cutoff: nat): seq<Joined> {
    if rows == [] then []
    else
      var r := rows[|rows| - 1];
      Counted(rows[..|rows| - 1], cutoff) + if Available(r, cutoff)
      && r.note.cols.value >= COST_PER_ACTION then [r] else []
  }

  function Units(pool: nat, count: nat): nat {
    if count == 0 then 0 else if pool == 0 then count else Max(count, 2)
  }

  function InMask(mask: PoolMask, pool: nat, v: int): int
    requires pool < NUM_POOLS
  {
    if mask.HasPool(pool) then v else 0
  }

  function Selected(rows: seq<Joined>, mask: PoolMask): int {
    InMask(mask, 0, ValueIn(rows, 0)) + InMask(mask, 1, ValueIn(rows, 1)) + InMask(mask, 2,
        ValueIn(rows, 2)) + InMask(mask, 3, ValueIn(rows, 3))
  }

  function InputsIn(rows: seq<Joined>, mask: PoolMask): seq<nat> {
    seq(NUM_POOLS, (p: nat) requires p < NUM_POOLS => if mask.HasPool(p) then CountIn(rows, p) else 0)
  }

  function Actions(inputs: seq<nat>): nat
    requires |inputs| == NUM_POOLS
  {
    Units(0, inputs[0]) + Units(1, inputs[1]) + Units(2, inputs[2]) + Units(3, inputs[3])
  }

  /** What the groups seen so far add up to. */
  function SeenValue(groups: seq<Group>, mask: PoolMask): int
    requires forall i | 0 <= i < |groups| :: groups[i].pool < NUM_POOLS
  {
    if groups == [] then 0
    else var g := groups[|groups| - 1]; SeenValue(groups[..|groups| - 1], mask) + InMask(mask, g.pool, g.value)
  }

  function SeenUnits(groups: seq<Group>, mask: PoolMask): nat
    requires forall i | 0 <= i < |groups| :: groups[i].pool < NUM_POOLS
  {
    if groups == [] then 0
    else var g := groups[|groups| - 1]; SeenUnits(groups[..|groups| - 1], mask) + if mask.HasPool(g.pool)
      then Units(g.pool, g.count) else 0
  }

  method MaxSpendable(groups: seq<Group>, mask: PoolMask, ghost rows: seq<Joined>) returns (max: int)
    requires Grouped(rows, groups)
    ensures max == SaturatingSub(Selected(rows, mask), (Actions(InputsIn(rows, mask)) + 4) * COST_PER_ACTION)
  {
    hide ValueIn, CountIn, Actions, Selected, InputsIn;
    var available, actions := 0, 0;
    for i := 0 to |groups|
      invariant available == SeenValue(groups[..i], mask) && actions == SeenUnits(groups[..i], mask)
    {
      assert groups[..i + 1][..i] == groups[..i];
      var g := groups[i];
      if mask.HasPool(g.pool) {
        available := available + g.value;
        actions := actions + if g.pool == 0 then g.count else Max(g.count, 2);
      }
    }
    assert groups[..|groups|] == groups;
    GroupsAddUp(rows, groups, mask);
    hide *;
    max := SaturatingSub(available, Max(actions + 4, 2) * COST_PER_ACTION);
    AtLeastTwo(actions);
  }

  lemma AtLeastTwo(actions: nat)
    ensures Max(actions + 4, 2) == actions + 4
  {
  }

  /** The values and units of the groups of one pool. */
  function SeenOf(groups: seq<Group>, mask: PoolMask, pool: nat): (int, nat)
    requires pool < NUM_POOLS
  {
    if groups == [] then (0, 0)
    else
      var (v, u), g := SeenOf(groups[..|groups| - 1], mask, pool), groups[|groups| - 1];
      if g.pool == pool && mask.HasPool(pool) then (v + g.value, u + Units(pool, g.count)) else (v, u)
  }

  lemma {:induction false} SeenByPool(groups: seq<Group>, mask: PoolMask)
    requires forall i | 0 <= i < |groups| :: groups[i].pool < NUM_POOLS
    ensures SeenValue(groups, mask) ==
              SeenOf(groups, mask, 0).0 + SeenOf(groups, mask, 1).0 + SeenOf(groups, mask, 2).0 + SeenOf(groups,
                  mask, 3).0
    ensures SeenUnits(groups, mask) ==
              SeenOf(groups, mask, 0).1 + SeenOf(groups, mask, 1).1 + SeenOf(groups, mask, 2).1 + SeenOf(groups,
                  mask, 3).1
  {
    if groups != [] {
      SeenByPool(groups[..|groups| - 1], mask);
    }
  }

  lemma {:induction false} SeenNone(groups: seq<Group>, mask: PoolMask, pool: nat)
    requires pool < NUM_POOLS && forall i | 0 <= i < |groups| :: groups[i].pool != pool
    ensures SeenOf(groups, mask, pool) == (0, 0)
  {
    if groups != [] {
      SeenNone(groups[..|groups| - 1], mask, pool);
    }
  }

  lemma {:induction false} SeenOnce(groups: seq<Group>, mask: PoolMask, pool: nat, i: nat)
    requires pool < NUM_POOLS && i < |groups| && groups[i].pool == pool
    requires forall a, b | 0 <= a < b < |groups| :: groups[a].pool != groups[b].pool
    ensures SeenOf(groups, mask, pool) == if mask.HasPool(pool) then (groups[i].value, Units(pool, groups[i].count))
              else (0, 0)
  {
    var front := groups[..|groups| - 1];
    if i == |groups| - 1 {
      SeenNone(front, mask, pool);
    } else {
      SeenOnce(front, mask, pool, i);
    }
  }

  lemma SeenIs(rows: seq<Joined>, groups: seq<Group>, mask: PoolMask, pool: nat)
    requires Grouped(rows, groups) && pool < NUM_POOLS
    ensures SeenOf(groups, mask, pool) ==
              (InMask(mask, pool, ValueIn(rows, pool)), Units(pool, InputsIn(rows, mask)[pool]))
  {
    if CountIn(rows, pool) > 0 {
      var i :| 0 <= i < |groups| && groups[i].pool == pool;
      SeenOnce(groups, mask, pool, i);
    } else {
      NothingCounted(rows, pool);
      SeenNone(groups, mask, pool);
    }
  }

  lemma GroupsAddUp(rows: seq<Joined>, groups: seq<Group>, mask: PoolMask)
    requires Grouped(rows, groups)
    ensures SeenValue(groups, mask) == Selected(rows, mask)
    ensures SeenUnits(groups, mask) == Actions(InputsIn(rows, mask))
  {
    SeenByPool(groups, mask);
    hide SeenOf, SeenValue, SeenUnits, Grouped, ValueIn, CountIn, Units;
    SeenIs(rows, groups, mask, 0);
    SeenIs(rows, groups, mask, 1);
    SeenIs(rows, groups, mask, 2);
    SeenIs(rows, groups, mask, 3);
  }

  // ---------------------------------------------------------------------
  // The maximum against the real fee
  // ---------------------------------------------------------------------

  /** The outputs of a payment: recipient and change, either, or none. */
  function OutputsIn(pools: seq<nat>): (outputs: seq<nat>)
    requires forall i | 0 <= i < |pools| :: pools[i] < NUM_POOLS
    ensures |outputs| == NUM_POOLS
  {
    if pools == [] then [0, 0, 0, 0]
    else
      var before, p := OutputsIn(pools[..|pools| - 1]), pools[|pools| - 1];
      before[p := before[p] + 1]
  }

  lemma FewOutputs(pools: seq<nat>)
    requires |pools| <= 2 && forall i | 0 <= i < |pools| :: pools[i] < NUM_POOLS
    ensures var out := OutputsIn(pools);
            out[0] + out[1] + out[2] + out[3] == |pools| && out == OutputsIn(pools)
  {
    if |pools| > 0 {
      assert OutputsIn([]) == [0, 0, 0, 0];
      if |pools| == 2 {
        assert pools[..1][..0] == [];
      }
    }
  }

  /** One pool: what its outputs add to the cost of its inputs. */
  lemma BundleBounds(inputs: seq<nat>, outputs: seq<nat>, migration: bool, pool: nat)
    requires |inputs| == NUM_POOLS && |outputs| == NUM_POOLS && 1 <= pool < NUM_POOLS && outputs[pool] <= 2
    ensures Units(pool, inputs[pool]) <= FeeManager(inputs, outputs, migration).Bundle(pool)
    ensures FeeManager(inputs, outputs, migration).Bundle(pool) <= Units(pool, inputs[pool]) + if outputs[pool] > 0
              then 2 else 0
  {
  }

  lemma ActionBounds(inputs: seq<nat>, outputs: seq<nat>, migration: bool)
    requires |inputs| == NUM_POOLS && |outputs| == NUM_POOLS && outputs[0] + outputs[1] + outputs[2] + outputs[3] <= 2
    ensures Actions(inputs) <= FeeManager(inputs, outputs, migration).LogicalActions() <= Actions(inputs) + 4
  {
    BundleBounds(inputs, outputs, migration, 1);
    BundleBounds(inputs, outputs, migration, 2);
    BundleBounds(inputs, outputs, migration, 3);
  }

  /** The fee pays for the inputs, and each of at most two outputs adds at most two actions. */
  lemma FeeBounds(inputs: seq<nat>, pools: seq<nat>, migration: bool)
    requires |inputs| == NUM_POOLS && |pools| <= 2 && forall i | 0 <= i < |pools| :: pools[i] < NUM_POOLS
    ensures var fee := FeeManager(inputs, OutputsIn(pools), migration).Fee();
            Actions(inputs) * COST_PER_ACTION <= fee <= (Actions(inputs) + 4) * COST_PER_ACTION
  {
    FewOutputs(pools);
    ActionBounds(inputs, OutputsIn(pools), migration);
    hide OutputsIn, Actions;
  }

  /** The counters have eight bits; in a build without overflow checks they wrap. */
  function Wrapped(counts: seq<nat>): seq<nat> {
    seq(|counts|, i requires 0 <= i < |counts| => counts[i] % 256)
  }

  lemma UnitsWrap(pool: nat, count: nat)
    ensures Units(pool, count % 256) <= Units(pool, count)
    ensures count < 256 ==> count % 256 == count
    ensures count >= 256 ==> Units(pool, count % 256) + 254 <= Units(pool, count)
  {
  }

  /** With wrapping counters the fee pays for the inputs if and only if no pool has more than 255 of them. */
  lemma WrappedFeeIff(inputs: seq<nat>, pools: seq<nat>, migration: bool)
    requires |inputs| == NUM_POOLS && |pools| <= 2 && forall i | 0 <= i < |pools| :: pools[i] < NUM_POOLS
    ensures var fee := FeeManager(Wrapped(inputs), OutputsIn(pools), migration).Fee();
            && fee <= (Actions(inputs) + 4) * COST_PER_ACTION
            && (Actions(inputs) * COST_PER_ACTION <= fee <==> forall p | 0 <= p < NUM_POOLS :: inputs[p] < 256)
  {
    FeeBounds(Wrapped(inputs), pools, migration);
    UnitsWrap(0, inputs[0]);
    UnitsWrap(1, inputs[1]);
    UnitsWrap(2, inputs[2]);
    UnitsWrap(3, inputs[3]);
    hide Units, OutputsIn, FeeManager.Fee;
    if forall p | 0 <= p < NUM_POOLS :: inputs[p] < 256 {
      assert Wrapped(inputs) == inputs;
    }
  }

  /**
   Whatever the notes, the source mask, the pools of recipient and change, and the
   mode: a positive maximum can be paid together with its fee, and it is at most
   four actions' cost below what is left after the real fee.
   */
  lemma MaximumIsFundable(rows: seq<Joined>, mask: PoolMask, pools: seq<nat>, migration: bool)
    requires |pools| <= 2 && forall i | 0 <= i < |pools| :: pools[i] < NUM_POOLS
    ensures var fee := FeeManager(InputsIn(rows, mask), OutputsIn(pools), migration).Fee();
            var max := SaturatingSub(Selected(rows, mask), (Actions(InputsIn(rows, mask)) + 4) * COST_PER_ACTION);
            && (max > 0 ==> Selected(rows, mask) >= max + fee)
            && max <= SaturatingSub(Selected(rows, mask), fee) <= max + 4 * COST_PER_ACTION
  {
    FeeBounds(InputsIn(rows, mask), pools, migration);
  }

  /**
   The bound is tight: with a transparent source and recipient and change in two shielded pools, all
   four actions are needed.
   */
  lemma BoundIsReached(count: nat, migration: bool)
    ensures var inputs := [count, 0, 0, 0];
            FeeManager(inputs, OutputsIn([1, 2]), migration).Fee() == (Actions(inputs) + 4) * COST_PER_ACTION
  {
    assert [1, 2][..1] == [1] && [1][..0] == [];
    assert OutputsIn([1]) == [0, 1, 0, 0];
    assert OutputsIn([1, 2]) == [0, 1, 1, 0];
  }

  /** Only available value is counted. */
  lemma {:induction false} CountedIsAvailable(rows: seq<Joined>, cutoff: nat, pool: nat)
    requires RowsPositive(rows)
    ensures ValueIn(Counted(rows, cutoff), pool) <= SplitOf(rows, pool, cutoff).available
  {
    if rows != [] {
      var front, r := rows[..|rows| - 1], rows[|rows| - 1];
      assert RowsPositive(front);
      CountedIsAvailable(front, cutoff, pool);
      var before := Counted(front, cutoff);
      if Available(r, cutoff) && r.note.cols.value >= COST_PER_ACTION {
        assert Counted(rows, cutoff) == before + [r];
        assert (before + [r])[..|before|] == before;
      } else {
        assert Counted(rows, cutoff) == before;
      }
    }
  }

  /** Available, and worth at least the action that spends it. */
  ghost function WorthyNote(db: Db, reservations: Table<Reservation>, cutoff: nat): Note -> bool {
    (n: Note) => n.cols.height <= cutoff && !n.cols.locked && n.cols.value >= 5000
                 && forall k | k in reservations :: !Holds(db, reservations[k], n)
  }

  function Worthy(cutoff: nat): Joined -> bool {
    (r: Joined) => Available(r, cutoff) && r.note.cols.value >= COST_PER_ACTION
  }

  /** One for each of these notes. */
  ghost function CountIf(db: Db, account: nat, pool: nat, p: Note -> bool): (nat, Note) -> int {
    (k: nat, n: Note) => if n.account == account && n.asset == None && k !in db.spends && n.cols.pool == pool
    && p(n) then 1 else 0
  }

  lemma {:induction false} CountedValue(rows: seq<Joined>, cutoff: nat, pool: nat)
    ensures ValueIn(Counted(rows, cutoff), pool) == ValueWhere(rows, pool, Worthy(cutoff))
  {
    if rows != [] {
      var front, r := rows[..|rows| - 1], rows[|rows| - 1];
      CountedValue(front, cutoff, pool);
      var before := Counted(front, cutoff);
      assert (before + [r])[..|before|] == before && before + [] == before;
    }
  }

  lemma {:induction false} CountedCount(db: Db, rows: seq<Joined>, cutoff: nat, pool: nat, w: (nat, Note) -> int)
    requires forall i | 0 <= i < |rows| :: rows[i].id in db.notes && rows[i].note == db.notes[rows[i].id]
    requires forall i | 0 <= i < |rows| ::
               w(rows[i].id, rows[i].note) == if rows[i].note.cols.pool == pool && Worthy(cutoff)(rows[i]) then 1 else 0
    ensures forall i | 0 <= i < |rows| :: Ids(rows)[i] in db.notes
    ensures CountIn(Counted(rows, cutoff), pool) == SumIds(Ids(rows), db.notes, w)
  {
    if rows != [] {
      var front, r := rows[..|rows| - 1], rows[|rows| - 1];
      CountedCount(db, front, cutoff, pool, w);
      var before := Counted(front, cutoff);
      assert (before + [r])[..|before|] == before && before + [] == before;
      assert Ids(rows) == Ids(front) + [r.id];
      assert Ids(rows)[..|front|] == Ids(front);
    }
  }

  lemma WorthyRows(db: Db, reservations: Table<Reservation>, account: nat, rows: seq<Joined>, pool: nat, cutoff: nat)
    requires JoinedOnce(db, reservations, account, rows)
    ensures forall i | 0 <= i < |rows| :: Worthy(cutoff)(rows[i]) <==>
              WorthyNote(db, reservations, cutoff)(rows[i].note)
    ensures forall i | 0 <= i < |rows| :: rows[i].id in db.notes &&
              CountIf(db, account, pool, WorthyNote(db, reservations, cutoff))(rows[i].id, rows[i].note) ==
                if rows[i].note.cols.pool == pool && Worthy(cutoff)(rows[i]) then 1 else 0
    ensures forall k | k in db.notes && k !in Ids(rows) ::
              CountIf(db, account, pool, WorthyNote(db, reservations, cutoff))(k, db.notes[k]) == 0
  {
    forall i | 0 <= i < |rows|
      ensures Worthy(cutoff)(rows[i]) <==> WorthyNote(db, reservations, cutoff)(rows[i].note)
    {
      assert rows[i].reserved <==> Reserved(db, reservations, rows[i].note);
      hide Holds;
    }
    hide WorthyNote, Worthy, Reserved;
    forall k | k in db.notes && k !in Ids(rows)
      ensures CountIf(db, account, pool, WorthyNote(db, reservations, cutoff))(k, db.notes[k]) == 0
    {
      assert !Unspent(db, account, k);
    }
  }

  /** What is counted, as sums over the notes of the database: each note once, and no other. */
  lemma CountedMeans(db: Db, reservations: Table<Reservation>, account: nat, rows: seq<Joined>, pool: nat, cutoff: nat)
    requires JoinedOnce(db, reservations, account, rows)
    ensures var counted, p := Counted(rows, cutoff), WorthyNote(db, reservations, cutoff);
            && ValueIn(counted, pool) == Sum(db.notes, UnspentIf(db, account, pool, p))
            && CountIn(counted, pool) == Sum(db.notes, CountIf(db, account, pool, p))
  {
    var p := WorthyNote(db, reservations, cutoff);
    WorthyRows(db, reservations, account, rows, pool, cutoff);
    JoinedParts(db, reservations, account, rows);
    hide *;
    CountedValue(rows, cutoff, pool);
    PartIsSum(db, reservations, account, rows, pool, Worthy(cutoff), p);
    CountedCount(db, rows, cutoff, pool, CountIf(db, account, pool, p));
    SumListed(Ids(rows), db.notes, CountIf(db, account, pool, p));
  }

  method GroupByPool(rows: seq<Joined>) returns (groups: seq<Group>)
    ensures Grouped(rows, groups)
  {
    groups := [];
    for p := 0 to NUM_POOLS
      invariant forall i | 0 <= i < |groups| :: groups[i].pool < p && groups[i].count > 0
                                                && groups[i].value == ValueIn(rows, groups[i].pool)
                                                && groups[i].count == CountIn(rows, groups[i].pool)
      invariant forall i, j | 0 <= i < j < |groups| :: groups[i].pool != groups[j].pool
      invariant forall q: nat | q < p && CountIn(rows, q) > 0 :: exists i :: 0 <= i < |groups| && groups[i].pool == q
    {
      var count := CountIn(rows, p);
      if count > 0 {
        ghost var before := groups;
        groups := groups + [Group(p, ValueIn(rows, p), count)];
        assert groups[|before|].pool == p;
        assert forall i | 0 <= i < |before| :: groups[i] == before[i];
      }
    }
  }

  method MaxSpendableFromPools(rows: seq<Joined>, mask: PoolMask, cutoff: nat) returns (max: int)
    ensures var counted := Counted(rows, cutoff);
            max == SaturatingSub(Selected(counted, mask), (Actions(InputsIn(counted, mask)) + 4) * COST_PER_ACTION)
  {
    var counted := Counted(rows, cutoff);
    var groups := GroupByPool(counted);
    max := MaxSpendable(groups, mask, counted);
  }

  /** The value of the worthy notes of the chosen pools. */
  ghost function WorthyValue(db: Db, reservations: Table<Reservation>, account: nat, mask: PoolMask, cutoff: nat): int {
    var p := WorthyNote(db, reservations, cutoff);
    InMask(mask, 0, Sum(db.notes, UnspentIf(db, account, 0, p)))
    + InMask(mask, 1, Sum(db.notes, UnspentIf(db, account, 1, p)))
    + InMask(mask, 2, Sum(db.notes, UnspentIf(db, account, 2, p)))
    + InMask(mask, 3, Sum(db.notes, UnspentIf(db, account, 3, p)))
  }

  /** Query and loop together, over the database: `inputs` are the numbers of notes that are spent. */
  method MaxSpendableOfAccount(db: Db, reservations: Table<Reservation>, account: nat, mask: PoolMask,
          confirmations: nat) returns (max: int, ghost inputs: seq<nat>)
    requires Unique(reservations, ReservationKey)
    ensures |inputs| == NUM_POOLS
    ensures var cutoff := Cutoff(Synced(db, account), confirmations);
            && (forall p: nat | p < NUM_POOLS ::
                  inputs[p] == if mask.HasPool(p)
                    then Sum(db.notes, CountIf(db, account, p, WorthyNote(db, reservations, cutoff))) else 0)
            && max == SaturatingSub(WorthyValue(db, reservations, account, mask, cutoff), (Actions(inputs) + 4) * 5000)
  {
    var cutoff := Cutoff(Synced(db, account), confirmations);
    var rows := JoinUnspent(db, reservations, account);
    max := MaxSpendableFromPools(rows, mask, cutoff);
    var counted := Counted(rows, cutoff);
    inputs := InputsIn(counted, mask);
    hide Sum, Actions, ValueIn, CountIn, JoinedOnce, Counted, WorthyNote, UnspentIf, CountIf, PoolMask.HasPool;
    forall p: nat | p < NUM_POOLS
      ensures ValueIn(counted, p) == Sum(db.notes, UnspentIf(db, account, p, WorthyNote(db, reservations, cutoff)))
      ensures CountIn(counted, p) == Sum(db.notes, CountIf(db, account, p, WorthyNote(db, reservations, cutoff)))
    {
      CountedMeans(db, reservations, account, rows, p, cutoff);
    }
  }
}
