/**
 The display order of accounts: positions, possibly with gaps, under creation,
 import, deletion and reordering.
 */
module AccountOrder {
  import opened Wrappers
  import opened Tables

  /** Account id to position. */
  type Positions = map<nat, nat>

  ghost predicate Distinct(p: Positions) { forall a, b | a in p && b in p && p[a] == p[b] :: a == b }

  ghost predicate FromOne(p: Positions) { forall a | a in p :: p[a] >= 1 }

  function PositionsUsed(p: Positions): set<nat> { set a | a in p :: p[a] }

  /** Last; MAX over no rows is NULL, which reads as 0. */
  function Created(p: Positions, id: nat): Positions {
    p[id := if p.Keys == {} then 1 else NextAbove(PositionsUsed(p))]
  }

  /** First; everybody else moves down. */
  function ImportedFirst(p: Positions, id: nat): Positions {
    (map a | a in p :: p[a] + 1)[id := 1]
  }

  /** The accounts between the two positions close the hole and make room. */
  function Moved(p: Positions, id: nat, old_: nat, new_: nat): Positions
    requires id in p
  {
    map a | a in p ::
      if a == id then new_
      else if old_ < p[a] <= new_ then p[a] - 1
      else if new_ <= p[a] < old_ then p[a] + 1
      else p[a]
  }

  lemma UsedIsEmpty(p: Positions)
    ensures PositionsUsed(p) == {} <==> p.Keys == {}
  {
    if p.Keys != {} {
      var a :| a in p;
      assert p[a] in PositionsUsed(p);
    }
  }

  class AccountTable {
    var positions: Positions

    method StoreAccount() returns (id: nat)
      modifies this
      ensures id !in old(positions) && positions == Created(old(positions), id)
      ensures forall a | a in old(positions) :: positions[a] == old(positions)[a] < positions[id]
      ensures positions[id] > 1 ==> positions[id] - 1 in PositionsUsed(old(positions))
      ensures old(positions) == map[] ==> positions == map[id := 1]
    {
      assert forall a | a in positions :: positions[a] in PositionsUsed(positions);
      id := NextId(positions);
      UsedIsEmpty(positions);
      var last := if positions.Keys == {} then 0 else MaxOf(PositionsUsed(positions));
      positions := positions[id := last + 1];
    }

    method ImportAccount() returns (id: nat)
      modifies this
      ensures id !in old(positions) && positions == ImportedFirst(old(positions), id)
      ensures positions.Keys == old(positions).Keys + {id} && positions[id] == 1
      ensures forall a | a in old(positions) :: positions[a] == old(positions)[a] + 1
    {
      positions := map a | a in positions :: positions[a] + 1;
      assert forall a | a in old(positions) :: a in positions;
      id := NextId(positions);
      positions := positions[id := 1];
    }

    method DeleteAccount(id: nat)
      modifies this
      ensures positions == old(positions) - {id}
    {
      positions := positions - {id};
    }

    /** Fails, changing nothing, when no account stands at the old position. */
    method ReorderAccount(oldPosition: nat, newPosition: nat) returns (moved: Option<nat>)
      modifies this
      ensures moved.None? <==> oldPosition !in PositionsUsed(old(positions))
      ensures moved.None? ==> positions == old(positions)
      ensures moved.Some? ==> moved.value in old(positions) && old(positions)[moved.value] == oldPosition
      ensures moved.Some? && Distinct(old(positions)) ==>
                positions == Moved(old(positions), moved.value, oldPosition, newPosition)
    {
      if !(exists a :: a in positions && positions[a] == oldPosition) {
        return None;
      }
      var id :| id in positions && positions[id] == oldPosition;
      assert positions[id] in PositionsUsed(positions);
      if oldPosition < newPosition {
        positions := map a | a in positions ::
          if oldPosition < positions[a] <= newPosition then positions[a] - 1 else positions[a];
      }
      if oldPosition > newPosition {
        positions := map a | a in positions ::
          if newPosition <= positions[a] < oldPosition then positions[a] + 1 else positions[a];
      }
      positions := positions[id := newPosition];
      return Some(id);
    }
  }

  // ---------------------------------------------------------------------
  // One reordering
  // ---------------------------------------------------------------------

  lemma ApartFrom(p: Positions, a: nat, id: nat)
    requires Distinct(p) && a in p && id in p
    ensures a == id || p[a] != p[id]
  {
  }

  lemma MoveKeepsDistinct(p: Positions, id: nat, new_: nat)
    requires Distinct(p) && id in p
    ensures Distinct(Moved(p, id, p[id], new_))
  {
    var p' := Moved(p, id, p[id], new_);
    forall a, b | a in p' && b in p' && p'[a] == p'[b]
      ensures a == b
    {
      ApartFrom(p, a, id);
      ApartFrom(p, b, id);
    }
  }

  /** All other accounts keep their order among themselves, gaps or not. */
  lemma MoveKeepsOrder(p: Positions, id: nat, new_: nat, a: nat, b: nat)
    requires Distinct(p) && id in p && a in p && b in p && a != id && b != id
    ensures Moved(p, id, p[id], new_)[id] == new_
    ensures p[a] < p[b] <==> Moved(p, id, p[id], new_)[a] < Moved(p, id, p[id], new_)[b]
  {
    assert p[a] != p[id] && p[b] != p[id];
  }

  /** Accounts outside the two positions stay where they are, and those between make one step towards the hole. */
  lemma MoveIsLocal(p: Positions, id: nat, new_: nat, a: nat)
    requires Distinct(p) && id in p && a in p && a != id
    ensures var p' := Moved(p, id, p[id], new_);
            && p'.Keys == p.Keys
            && (p[a] < p[id] && p[a] < new_ ==> p'[a] == p[a])
            && (p[a] > p[id] && p[a] > new_ ==> p'[a] == p[a])
            && (p[id] < p[a] <= new_ ==> p'[a] + 1 == p[a])
            && (new_ <= p[a] < p[id] ==> p'[a] == p[a] + 1)
  {
    ApartFrom(p, a, id);
  }

  /** Moving there and back is the identity. */
  lemma MoveBack(p: Positions, id: nat, new_: nat)
    requires Distinct(p) && id in p
    ensures var p' := Moved(p, id, p[id], new_); p'[id] == new_ && Moved(p', id, new_, p[id]) == p
  {
    assert forall a | a in p && a != id :: p[a] != p[id];
  }

  // ---------------------------------------------------------------------
  // Runs
  // ---------------------------------------------------------------------

  datatype Op = Create(id: nat) | Import(id: nat) | Delete(id: nat) | Reorder(oldPosition: nat, newPosition: nat)

  ghost predicate Step(p: Positions, op: Op, p': Positions) {
    match op
    case Create(id) => id !in p && p' == Created(p, id)
    case Import(id) => id !in p && p' == ImportedFirst(p, id)
    case Delete(id) => p' == p - {id}
    case Reorder(o, n) =>
      if o in PositionsUsed(p) then n >= 1 && exists id :: id in p && p[id] == o && p' == Moved(p, id, o, n)
      else p' == p
  }

  ghost predicate Run(states: seq<Positions>, ops: seq<Op>) {
    |states| == |ops| + 1 && states[0] == map[] && forall i | 0 <= i < |ops| :: Step(states[i], ops[i], states[i + 1])
  }

  lemma CreateOk(p: Positions, id: nat)
    requires Distinct(p) && FromOne(p) && id !in p
    ensures Distinct(Created(p, id)) && FromOne(Created(p, id))
  {
    assert forall a | a in p :: p[a] in PositionsUsed(p);
    UsedIsEmpty(p);
  }

  /** An import keeps positions apart exactly when nobody stands at 0. */
  lemma ImportDistinctIff(p: Positions, id: nat)
    requires Distinct(p) && id !in p
    ensures Distinct(ImportedFirst(p, id)) <==> FromOne(p)
  {
    var p' := ImportedFirst(p, id);
    assert forall a | a in p :: a in p' && p'[a] == p[a] + 1;
    assert p'[id] == 1;
  }

  lemma StepOk(p: Positions, op: Op, p': Positions)
    requires Distinct(p) && FromOne(p) && Step(p, op, p')
    ensures Distinct(p') && FromOne(p')
  {
    match op
    case Create(id) => CreateOk(p, id);
    case Import(id) => ImportDistinctIff(p, id);
    case Delete(id) =>
    case Reorder(o, n) =>
      if o in PositionsUsed(p) {
        var id :| id in p && p[id] == o && p' == Moved(p, id, o, n);
        MoveKeepsDistinct(p, id, n);
      }
  }

  /** Over every run whose reorderings target a position of at least 1, no two accounts share a position. */
  lemma {:induction false} RunsKeepPositionsDistinct(states: seq<Positions>, ops: seq<Op>)
    requires Run(states, ops)
    ensures Distinct(states[|ops|]) && FromOne(states[|ops|])
  {
    if ops != [] {
      var n := |ops| - 1;
      RunsKeepPositionsDistinct(states[..n + 1], ops[..n]);
      StepOk(states[n], ops[n], states[n + 1]);
    }
  }

  /** A reordering to 0 followed by an import puts two accounts at position 1. */
  lemma ReorderToZeroCollides(a: nat, b: nat)
    requires a != b
    ensures var p: Positions := map[a := 1];
            var moved := Moved(p, a, 1, 0);
            Distinct(p) && FromOne(p) && ImportedFirst(moved, b)[a] == ImportedFirst(moved, b)[b]
  {
  }
}
