/**
 Backfill markers of transparent addresses: how far the history of each address
 is known to be complete.
 */
module Backfill {
  import opened Wrappers

  /** Account, scope and derivation index. */
  type Key = (nat, nat, nat)

  /** The birthdays of the stored accounts and the markers of the stored addresses; None is NULL. */
  datatype State = State(births: map<nat, nat>, markers: map<Key, Option<nat>>)

  /** A claim lands only if it leaves no hole above the marker or the birthday, and raises the marker. */
  predicate Lands(marker: Option<nat>, birth: nat, from: nat, through: nat) {
    from <= Max(if marker.Some? then marker.value + 1 else 0, birth) && (marker.None? || marker.value < through)
  }

  predicate Proven(marker: Option<nat>, x: nat) { marker.Some? && x <= marker.value }

  /** Every height from the birthday up to `from` is proven already. */
  ghost predicate Gapless(marker: Option<nat>, birth: nat, from: nat) {
    forall x: nat | birth <= x < from :: Proven(marker, x)
  }

  lemma LandsIff(marker: Option<nat>, birth: nat, from: nat, through: nat)
    ensures Lands(marker, birth, from, through) <==> Gapless(marker, birth, from) && !Proven(marker, through)
  {
    if Gapless(marker, birth, from) && from > birth {
      assert Proven(marker, from - 1);
    }
  }

  predicate NotLowered(before: Option<nat>, after: Option<nat>) {
    before.Some? ==> after.Some? && before.value <= after.value
  }

  /** NULL, or at or below the height. */
  predicate Reaches(height: nat, marker: Option<nat>) {
    marker.Some? ==> marker.value <= height
  }

  function Advanced(s: State, key: Key, birth: nat, from: nat, through: nat): State {
    if key in s.markers
    && Lands(s.markers[key], birth, from, through) then s.(markers := s.markers[key := Some(through)]) else s
  }

  function Clamped(s: State, account: nat, height: nat): State {
    s.(markers := map k | k in s.markers ::
      if k.0 == account && s.markers[k].Some? && s.markers[k].value > height then Some(height) else s.markers[k])
  }

  function Reborn(s: State, account: nat, birth: nat): State {
    State(if account in s.births then s.births[account := birth] else s.births,
          map k | k in s.markers :: if k.0 == account then None else s.markers[k])
  }

  function Removed(s: State, account: nat): State {
    State(s.births - {account}, map k | k in s.markers && k.0 != account :: s.markers[k])
  }

  function Created(s: State, account: nat, birth: nat): State {
    s.(births := s.births[account := birth])
  }

  /** ON CONFLICT DO NOTHING: a stored address keeps its marker. */
  function AddressStored(s: State, key: Key): State {
    if key in s.markers then s else s.(markers := s.markers[key := None])
  }

  class Markers {
    var births: map<nat, nat>
    var markers: map<Key, Option<nat>>

    function Now(): State
      reads this
    {
      State(births, markers)
    }

    method AdvanceBackfilledHeight(account: nat, birthHeight: nat, scope: nat, dindex: nat, coveredFrom: nat,
            through: nat)
      modifies this
      ensures Now() == Advanced(old(Now()), (account, scope, dindex), birthHeight, coveredFrom, through)
      ensures forall k | k in old(markers) :: NotLowered(old(markers[k]), if k in markers then markers[k] else None)
      ensures markers.Keys == old(markers).Keys && births == old(births)
      ensures forall k | k in markers ::
                if k == (account, scope, dindex) && Gapless(old(markers)[k], birthHeight, coveredFrom)
                   && !Proven(old(markers)[k], through)
                then markers[k] == Some(through) else markers[k] == old(markers)[k]
    {
      var key := (account, scope, dindex);
      if key in markers {
        LandsIff(markers[key], birthHeight, coveredFrom, through);
      }
      hide Gapless;
      if key in markers {
        var marker := markers[key];
        var reach := if marker.Some? then marker.value + 1 else 0;
        if coveredFrom <= (if reach > birthHeight then reach else birthHeight)
        && (marker.None? || marker.value < through) {
          markers := markers[key := Some(through)];
        }
      }
    }

    /** The marker part of a trim. */
    method ClampMarkers(account: nat, height: nat)
      modifies this
      ensures Now() == Clamped(old(Now()), account, height)
      ensures forall k | k in markers && k.0 == account && markers[k].Some? :: markers[k].value <= height
      ensures markers.Keys == old(markers).Keys && births == old(births)
      ensures forall k | k in markers && (k.0 != account || Reaches(height, old(markers)[k])) ::
                markers[k] == old(markers)[k]
      ensures forall k | k in markers && k.0 == account && !Reaches(height, old(markers)[k]) ::
                markers[k] == Some(height)
    {
      markers := map k | k in markers ::
        if k.0 == account && markers[k].Some? && markers[k].value > height then Some(height) else markers[k];
    }

    /** The birthday and the markers change in one transaction. */
    method UpdateBirth(account: nat, birth: nat)
      modifies this
      ensures Now() == Reborn(old(Now()), account, birth)
      ensures markers.Keys == old(markers).Keys && births.Keys == old(births).Keys
      ensures forall k | k in markers :: markers[k] == if k.0 == account then None else old(markers)[k]
      ensures forall a | a in births :: births[a] == if a == account then birth else old(births)[a]
    {
      if account in births {
        births := births[account := birth];
      }
      markers := map k | k in markers :: if k.0 == account then None else markers[k];
    }
  }

  // ---------------------------------------------------------------------
  // Runs
  // ---------------------------------------------------------------------

  datatype Event =
    | Create(account: nat, birth: nat)
    | Store(key: Key)
    | Claim(key: Key, birth: nat, from: nat, through: nat)
    | Trim(account: nat, height: nat)
    | Birthday(account: nat, birth: nat)
    | Delete(account: nat)

  function Apply(s: State, e: Event): State {
    match e
    case Create(a, birth) => Created(s, a, birth)
    case Store(key) => AddressStored(s, key)
    case Claim(key, birth, from, through) => Advanced(s, key, birth, from, through)
    case Trim(a, height) => Clamped(s, a, height)
    case Birthday(a, birth) => Reborn(s, a, birth)
    case Delete(a) => Removed(s, a)
  }

  function After(h: seq<Event>): State {
    if h == [] then State(map[], map[]) else Apply(After(h[..|h| - 1]), h[|h| - 1])
  }

  /**
   Ids of new accounts are free, addresses belong to stored accounts, and a claim is
   made with a birthday no later than the live one: walks and syncs check or read
   the birthday in the critical section that makes the claim.
   */
  predicate Admissible(s: State, e: Event) {
    match e
    case Create(a, _) => a !in s.births
    case Store(key) => key.0 in s.births
    case Claim(key, birth, _, _) => key.0 in s.births ==> birth <= s.births[key.0]
    case _ => true
  }

  ghost predicate Run(h: seq<Event>) {
    forall i: nat | i < |h| :: Admissible(After(h[..i]), h[i])
  }

  /** Events that make earlier claims about height `x` of an address void. */
  predicate Voids(e: Event, key: Key, x: nat) {
    match e
    case Trim(a, height) => a == key.0 && height < x
    case Birthday(a, _) => a == key.0
    case Delete(a) => a == key.0
    case _ => false
  }

  predicate Claims(e: Event, key: Key, x: nat) {
    e.Claim? && e.key == key && e.from <= x <= e.through
  }

  /** Some claim covers the height, and nothing since has voided it. */
  ghost predicate Covered(h: seq<Event>, key: Key, x: nat) {
    exists i: nat :: i < |h| && Claims(h[i], key, x) && forall j | i < j < |h| :: !Voids(h[j], key, x)
  }

  lemma CoveredStep(h: seq<Event>, e: Event, key: Key, x: nat)
    ensures Covered(h, key, x) && !Voids(e, key, x) ==> Covered(h + [e], key, x)
    ensures Claims(e, key, x) ==> Covered(h + [e], key, x)
  {
    var all := h + [e];
    if Covered(h, key, x) && !Voids(e, key, x) {
      var i: nat :| i < |h| && Claims(h[i], key, x) && forall j | i < j < |h| :: !Voids(h[j], key, x);
      assert all[i] == h[i] && forall j | i < j < |h| :: all[j] == h[j];
    }
    if Claims(e, key, x) {
      assert all[|h|] == e;
    }
  }

  ghost predicate Contiguous(h: seq<Event>) {
    var s := After(h);
    && (forall k | k in s.markers :: k.0 in s.births)
    && (forall k, x: nat | k in s.markers && s.markers[k].Some? && s.births[k.0] <= x <= s.markers[k].value ::
         Covered(h, k, x))
  }

  lemma ContiguousStep(h: seq<Event>, e: Event)
    requires Contiguous(h) && Admissible(After(h), e)
    ensures Contiguous(h + [e])
  {
    var s, all := After(h), h + [e];
    assert all[..|all| - 1] == h;
    var s' := After(all);
    assert s' == Apply(s, e);
    hide After;
    forall k, x: nat | k in s'.markers && s'.markers[k].Some? && s'.births[k.0] <= x <= s'.markers[k].value
      ensures Covered(all, k, x)
    {
      CoveredStep(h, e, k, x);
    }
  }

  /**
   In every reachable state, whatever claims came out of order, too late or after a
   rewind: below a marker there is no height since the birthday that no live claim covers.
   */
  lemma {:induction false} MarkersAreContiguous(h: seq<Event>)
    requires Run(h)
    ensures Contiguous(h)
  {
    if h != [] {
      var front := h[..|h| - 1];
      assert forall i: nat | i < |front| :: front[..i] == h[..i] && front[i] == h[i];
      MarkersAreContiguous(front);
      assert Admissible(After(h[..|h| - 1]), h[|h| - 1]);
      assert h == front + [h[|h| - 1]];
      ContiguousStep(front, h[|h| - 1]);
    }
  }

  /** Claims that continue each other raise the marker to the end of the last one, overlap or not. */
  lemma ClaimsChain(s: State, key: Key, birth: nat, middle: nat, from: nat, through: nat)
    requires key in s.markers && from <= middle + 1 && middle < through && !Proven(s.markers[key], through)
    ensures var s' := Apply(Apply(s, Claim(key, birth, birth, middle)), Claim(key, birth, from, through));
            key in s'.markers && s'.markers[key] == Some(through)
  {
  }

  function AccountOf(e: Event): nat {
    match e
    case Create(a, _) => a
    case Store(key) => key.0
    case Claim(key, _, _, _) => key.0
    case Trim(a, _) => a
    case Birthday(a, _) => a
    case Delete(a) => a
  }

  /** No event touches the birthday or a marker of another account; storing a stored address changes nothing. */
  lemma OthersStay(s: State, e: Event, other: nat)
    requires AccountOf(e) != other
    ensures other in Apply(s, e).births <==> other in s.births
    ensures other in s.births ==> Apply(s, e).births[other] == s.births[other]
    ensures forall k: Key | k.0 == other :: k in Apply(s, e).markers <==> k in s.markers
    ensures forall k: Key | k.0 == other && k in s.markers :: Apply(s, e).markers[k] == s.markers[k]
    ensures forall k: Key | k in s.markers :: Apply(s, Store(k)) == s
  {
  }

  /** A claim made with a later birthday than the live one would break it, at the birthday itself. */
  lemma StaleBirthBreaks(account: nat, scope: nat, dindex: nat, live: nat, stale: nat, through: nat)
    requires live < stale <= through
    ensures var key := (account, scope, dindex);
            var h := [Create(account, live), Store(key)];
            var e := Claim(key, stale, stale, through);
            && Run(h) && !Admissible(After(h), e) && After(h + [e]).markers[key] == Some(through)
            && !Covered(h + [e], key, live) && !Contiguous(h + [e])
  {
    var key := (account, scope, dindex);
    var h, e := [Create(account, live), Store(key)], Claim(key, stale, stale, through);
    var all := h + [e];
    assert all[..2] == h && h[..1] == [Create(account, live)] && h[..0] == [];
    assert After([Create(account, live)]) == State(map[account := live], map[]) by {
      assert [Create(account, live)][..0] == [];
    }
    assert After(h) == State(map[account := live], map[key := None]);
    assert After(all) == State(map[account := live], map[key := Some(through)]);
    assert all[0] == h[0] && all[1] == h[1] && all[2] == e;
    assert !Covered(all, key, live);
    assert key in After(all).markers;
  }
}
