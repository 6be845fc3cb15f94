/**
 Catch-up debts beside the coverage certificate: heights at which history of an
 address is known to exist and is not in the database.
 */
module CatchUp {
  import opened Wrappers
  import opened Decimals
  import opened Coverage

  /** Account and row id. */
  type Address = (nat, nat)

  /** The property table, the markers of the stored addresses (None is NULL), and the debts (absent is NULL). */
  datatype State = State(props: map<string, string>, markers: map<Address, Option<nat>>, debts: map<Address, nat>)

  datatype Event =
    | Stored(address: Address)
    /** A claim that landed moved the marker. */
    | Marked(address: Address, through: nat)
    /** A window saw a transaction above the seam. */
    | Sighted(address: Address, through: nat)
    /**
     `dropped` holds the highest deleted transparent note of each address; `other` says that
     anything else was deleted.
     */
    | Trim(account: nat, height: nat, dropped: map<Address, nat>, other: bool)
    /** A sync pass is over: markers that reach their debt pay it. */
    | Settled(account: nat)
    /** The part of a reset after its trim. */
    | Forgiven(account: nat)
    | WalkRecorded(account: nat, gap: nat, began: nat)
    | WalksRetired(account: nat)
    | Birthday(account: nat)
    | Deleted(account: nat)

  predicate Above(s: State, account: nat, height: nat) {
    exists k :: k in s.markers && k.0 == account && s.markers[k].Some? && s.markers[k].value > height
  }

  /** A trim bumps the counter if it deleted or clamped anything. */
  predicate Lands(s: State, account: nat, height: nat, dropped: map<Address, nat>, other: bool) {
    other || dropped != map[] || Above(s, account, height)
  }

  /** The same step as the certificate sees it. */
  function Seen(s: State, e: Event): Coverage.Event {
    match e
    case Stored(k) => Unrelated(k.0)
    case Marked(k, _) => Unrelated(k.0)
    case Sighted(k, _) => Unrelated(k.0)
    case Trim(a, h, dropped, other) => if Lands(s, a, h, dropped, other) then TrimLanded(a) else Unrelated(a)
    case Settled(a) => Unrelated(a)
    case Forgiven(a) => Retired(a)
    case WalkRecorded(a, gap, began) => Walked(a, gap, began)
    case WalksRetired(a) => Retired(a)
    case Birthday(a) => Cleared(a)
    case Deleted(a) => Cleared(a)
  }

  function Markers(s: State, e: Event): map<Address, Option<nat>> {
    match e
    case Stored(k) => if k in s.markers then s.markers else s.markers[k := None]
    case Marked(k, through) => if k in s.markers then s.markers[k := Some(through)] else s.markers
    case Trim(a, h, _, _) =>
      map k | k in s.markers ::
        if k.0 == a && s.markers[k].Some? && s.markers[k].value > h then Some(h) else s.markers[k]
    case Birthday(a) => map k | k in s.markers :: if k.0 == a then None else s.markers[k]
    case Deleted(a) => map k | k in s.markers && k.0 != a :: s.markers[k]
    case _ => s.markers
  }

  /** The height by which the event raises the debt of an address. */
  function Raise(s: State, e: Event, k: Address): Option<nat> {
    match e
    case Sighted(x, through) => if x == k && k in s.markers then Some(through) else None
    case Trim(_, _, dropped, _) => if k in dropped && k in s.markers then Some(dropped[k]) else None
    case _ => None
  }

  /** The event ends the debt: the marker reaches it at the end of a pass, a reset forgives it, or the row goes. */
  predicate Pays(s: State, e: Event, k: Address) {
    match e
    case Settled(a) => a == k.0 && k in s.debts && k in s.markers && s.markers[k].Some?
    && s.markers[k].value >= s.debts[k]
    case Forgiven(a) => a == k.0
    case Deleted(a) => a == k.0
    case _ => false
  }

  function Owed(s: State, k: Address): nat { if k in s.debts then s.debts[k] else 0 }

  function Debts(s: State, e: Event): map<Address, nat> {
    map k | k in s.debts.Keys + s.markers.Keys && (Raise(s, e, k).Some? || (k in s.debts && !Pays(s, e, k))) ::
      if Raise(s, e, k).Some? then Max(Owed(s, k), Raise(s, e, k).value) else Owed(s, k)
  }

  function Apply(s: State, e: Event): State {
    State(Coverage.Apply(s.props, Seen(s, e)), Markers(s, e), Debts(s, e))
  }

  function After(h: seq<Event>): State {
    if h == [] then State(map[], map[], map[]) else Apply(After(h[..|h| - 1]), h[|h| - 1])
  }

  function SeenAll(h: seq<Event>): (seen: seq<Coverage.Event>)
    ensures |seen| == |h|
  {
    if h == [] then [] else SeenAll(h[..|h| - 1]) + [Seen(After(h[..|h| - 1]), h[|h| - 1])]
  }

  lemma {:induction false} SameProps(h: seq<Event>)
    ensures After(h).props == Coverage.After(map[], SeenAll(h))
  {
    if h != [] {
      SameProps(h[..|h| - 1]);
      assert SeenAll(h)[..|h| - 1] == SeenAll(h[..|h| - 1]);
    }
  }

  // ---------------------------------------------------------------------
  // Open debts
  // ---------------------------------------------------------------------

  ghost predicate RaisedAt(h: seq<Event>, i: nat, k: Address) {
    i < |h| && Raise(After(h[..i]), h[i], k).Some?
  }

  /** The height raised at `i`, 0 if none is. */
  ghost function Height(h: seq<Event>, i: nat, k: Address): nat {
    if RaisedAt(h, i, k) then Raise(After(h[..i]), h[i], k).value else 0
  }

  ghost predicate PaidAt(h: seq<Event>, i: nat, k: Address) {
    i < |h| && Pays(After(h[..i]), h[i], k)
  }

  /** Raised at `i` and not ended since. */
  ghost predicate OpenAt(h: seq<Event>, i: nat, k: Address) {
    RaisedAt(h, i, k) && forall j: nat | i < j < |h| :: !PaidAt(h, j, k)
  }

  /** The debt is the highest height raised and still open; there is none exactly when no raise is open. */
  ghost predicate DebtIs(h: seq<Event>, k: Address) {
    var s := After(h);
    && (k in s.debts <==> exists i: nat :: OpenAt(h, i, k))
    && (forall i: nat | OpenAt(h, i, k) :: Height(h, i, k) <= Owed(s, k))
    && (k in s.debts ==> exists i: nat :: OpenAt(h, i, k) && Height(h, i, k) == Owed(s, k))
  }

  lemma Prefixes(h: seq<Event>, e: Event)
    ensures forall i: nat | i <= |h| :: (h + [e])[..i] == h[..i]
    ensures forall i: nat | i < |h| :: (h + [e])[i] == h[i]
    ensures (h + [e])[|h|] == e
  {
  }

  lemma OpenStep(h: seq<Event>, e: Event, k: Address)
    ensures forall i: nat | i < |h| :: OpenAt(h + [e], i, k) <==> OpenAt(h, i, k) && !Pays(After(h), e, k)
    ensures forall i: nat | i < |h| :: Height(h + [e], i, k) == Height(h, i, k)
    ensures OpenAt(h + [e], |h|, k) <==> Raise(After(h), e, k).Some?
    ensures Raise(After(h), e, k).Some? ==> Height(h + [e], |h|, k) == Raise(After(h), e, k).value
    ensures forall i: nat :: OpenAt(h + [e], i, k) ==> i <= |h|
    ensures forall i: nat :: OpenAt(h, i, k) ==> i < |h|
  {
    Prefixes(h, e);
    hide After, Raise, Pays;
    var all := h + [e];
    assert h[..|h|] == h;
    assert PaidAt(all, |h|, k) <==> Pays(After(h), e, k);
    forall i: nat | i < |h|
      ensures RaisedAt(all, i, k) <==> RaisedAt(h, i, k)
      ensures PaidAt(all, i, k) <==> PaidAt(h, i, k)
    {
    }
  }

  lemma AfterStep(h: seq<Event>, e: Event)
    ensures After(h + [e]) == Apply(After(h), e)
  {
    assert (h + [e])[..|h|] == h;
  }

  lemma DebtStep(h: seq<Event>, e: Event, k: Address)
    requires DebtIs(h, k)
    ensures DebtIs(h + [e], k)
  {
    var s, all := After(h), h + [e];
    AfterStep(h, e);
    OpenStep(h, e, k);
    RaiseIsNoPayment(s, e, k);
    DebtsAfter(s, e, k);
    hide After, OpenAt, Height, Apply, Raise, Pays;
    if k in s.debts && !Pays(s, e, k) {
      var i: nat :| OpenAt(h, i, k) && Height(h, i, k) == Owed(s, k);
      assert OpenAt(all, i, k) && Height(all, i, k) == Owed(s, k);
    }
    if Raise(s, e, k).Some? {
      assert OpenAt(all, |h|, k);
    }
  }

  lemma DebtsAfter(s: State, e: Event, k: Address)
    ensures k in Apply(s, e).debts <==> Raise(s, e, k).Some? || (k in s.debts && !Pays(s, e, k))
    ensures k in Apply(s, e).debts ==>
              Owed(Apply(s, e), k) == if Raise(s, e, k).Some? then Max(Owed(s, k), Raise(s, e, k).value) else Owed(s, k)
  {
  }

  lemma RaiseIsNoPayment(s: State, e: Event, k: Address)
    ensures Raise(s, e, k).Some? ==> !Pays(s, e, k) && k in s.markers
  {
  }

  /** Over every run, what an address owes is the highest sighting or dropped note that nothing has paid since. */
  lemma {:induction false} DebtsAreOpenRaises(h: seq<Event>, k: Address)
    ensures DebtIs(h, k)
  {
    if h != [] {
      var front, e := h[..|h| - 1], h[|h| - 1];
      assert h == front + [e];
      DebtsAreOpenRaises(front, k);
      DebtStep(front, e, k);
    }
  }

  // ---------------------------------------------------------------------
  // The certificate and the debts
  // ---------------------------------------------------------------------

  ghost predicate OwesNothing(s: State, account: nat) {
    forall k | k in s.debts :: k.0 != account
  }

  predicate InBounds(h: seq<Event>) {
    InRange(SeenAll(h)) && |h| < I64_MAX
  }

  ghost predicate AllPaid(h: seq<Event>, account: nat) {
    forall k: Address, i: nat | k.0 == account && RaisedAt(h, i, k) :: exists j: nat :: i < j && PaidAt(h, j, k)
  }

  /**
   Whether certified or not, an account owes nothing if and only if every sighting and
   every note a trim dropped has been paid, forgiven or deleted since.
   */
  lemma OwesNothingIff(h: seq<Event>, account: nat)
    ensures OwesNothing(After(h), account) <==> AllPaid(h, account)
  {
    hide After, Raise, Pays;
    if AllPaid(h, account) {
      forall k: Address | k.0 == account
        ensures k !in After(h).debts
      {
        PaidKey(h, k);
      }
    }
    if OwesNothing(After(h), account) {
      forall k: Address, i: nat | k.0 == account && RaisedAt(h, i, k)
        ensures exists j: nat :: i < j && PaidAt(h, j, k)
      {
        DebtsAreOpenRaises(h, k);
        assert !OpenAt(h, i, k);
      }
    }
  }

  lemma PaidKey(h: seq<Event>, k: Address)
    requires forall i: nat | RaisedAt(h, i, k) :: exists j: nat :: i < j && PaidAt(h, j, k)
    ensures k !in After(h).debts
  {
    hide After, Raise, Pays;
    DebtsAreOpenRaises(h, k);
    forall i: nat
      ensures !OpenAt(h, i, k)
    {
    }
  }

  /** At the end of a sync pass nothing is owed if and only if every marker reaches its debt. */
  lemma SettledOwesNothingIff(h: seq<Event>, account: nat)
    ensures OwesNothing(After(h + [Settled(account)]), account) <==>
            var s := After(h);
            forall k | k in s.debts && k.0 == account ::
              k in s.markers && s.markers[k].Some? && s.debts[k] <= s.markers[k].value
  {
    AfterStep(h, Settled(account));
    hide After;
  }

  /** A debt ends only when its marker reaches it at the end of a pass, or with a reset or a deletion of its account. */
  lemma DebtEndsIff(s: State, e: Event, k: Address)
    requires k in s.debts
    ensures k !in Apply(s, e).debts <==>
            || e == Forgiven(k.0) || e == Deleted(k.0)
            || (e == Settled(k.0) && k in s.markers && s.markers[k].Some? && s.debts[k] <= s.markers[k].value)
    ensures k in Apply(s, e).debts ==> s.debts[k] <= Apply(s, e).debts[k]
  {
  }

  /**
   What a trim drops from above its height stays owed through the end of a pass: the marker it
   clamped cannot pay, only history scanned again can.
   */
  lemma TrimDebtOutlivesPass(s: State, account: nat, height: nat, dropped: map<Address, nat>, other: bool, k: Address)
    requires k in dropped && k in s.markers && k.0 == account && height < dropped[k]
    ensures var s' := Apply(Apply(s, Trim(account, height, dropped, other)), Settled(account));
            k in s'.debts && s'.debts[k] == Max(Owed(s, k), dropped[k])
  {
  }

  /** Nor does a debt end with a birthday change, although that voids the marker. */
  lemma BirthdayKeepsDebt(s: State, account: nat, k: Address)
    requires k in s.debts && k.0 == account
    ensures var s' := Apply(Apply(s, Birthday(account)), Settled(account)); k in s'.debts && s'.debts[k] == s.debts[k]
  {
  }

  /** A marker set by a claim pays at the end of the pass exactly when it reaches the debt. */
  lemma MarkerPaysIff(s: State, k: Address, through: nat)
    requires k in s.debts && k in s.markers
    ensures k !in Apply(Apply(s, Marked(k, through)), Settled(k.0)).debts <==> s.debts[k] <= through
  {
  }

  /**
   What each event does to the certificate of its account: a reset and a retirement only start a new
   incarnation, a birthday change and a deletion clear, and what is seen, stored or settled does nothing.
   */
  lemma EventOnCertificate(s: State, e: Event, account: nat)
    requires e == Forgiven(account) || e == WalksRetired(account) || e == Birthday(account) || e == Deleted(account)
             || e.Stored? || e.Marked? || e.Sighted? || e.Settled?
    ensures e.Stored? || e.Marked? || e.Sighted? || e.Settled? ==> Apply(s, e).props == s.props
    ensures e.Forgiven? || e.WalksRetired? || e.Birthday? || e.Deleted? ==>
              Incarnation(Apply(s, e).props, account) == (Incarnation(s.props, account) + 1) % U32_LIMIT
    ensures e.Forgiven? || e.WalksRetired? ==>
              ReadCoverage(Apply(s, e).props, account) == ReadCoverage(s.props, account)
    ensures e.Birthday? || e.Deleted? ==>
              ReadCoverage(Apply(s, e).props, account) == TransparentCoverage(false, 0, 0)
  {
    RetiredMeans(s.props, account);
    ClearedMeans(s.props, account);
    hide ReadCoverage, Incarnation, RetiredWalks, ClearedCoverage, OthersUntouched;
  }

  /**
   A trim keeps a certificate exactly when it had nothing to do: no row deleted, and no marker of
   the account above the height. Other accounts' certificates stay.
   */
  lemma TrimKeepsCertificateIff(h: seq<Event>, e: Event, b: nat)
    requires e.Trim? && InBounds(h + [e]) && InBounds(h) && b < U32_LIMIT
    ensures ReadCoverage(After(h + [e]).props, b).certified <==>
            && ReadCoverage(After(h).props, b).certified
            && (b != e.account
                || (!e.other && e.dropped == map[]
                    && forall k | k in After(h).markers && k.0 == b && After(h).markers[k].Some? ::
                         After(h).markers[k].value <= e.height))
  {
    var s := After(h);
    SameProps(h);
    SameProps(h + [e]);
    NothingStored();
    SeenStep(h, e);
    CertifiedStep(SeenAll(h), Seen(s, e), b);
    CertificateMeansWalked(map[], SeenAll(h), b);
    CertificateMeansWalked(map[], SeenAll(h + [e]), b);
    hide After, ReadCoverage, Certified;
  }

  lemma SeenStep(h: seq<Event>, e: Event)
    ensures SeenAll(h + [e]) == SeenAll(h) + [Seen(After(h), e)]
  {
    assert (h + [e])[..|h|] == h;
  }

  lemma {:induction false} SeenAt(h: seq<Event>, i: nat)
    requires i < |h|
    ensures SeenAll(h)[i] == Seen(After(h[..i]), h[i])
  {
    if i < |h| - 1 {
      SeenAt(h[..|h| - 1], i);
      assert h[..|h| - 1][..i] == h[..i];
    }
  }

  /**
   While an account is certified, what was raised after its certifying walk was seen by a
   window above the seam: a trim that drops a note always ends the certificate.
   */
  lemma CertifiedDebtsAreSightings(h: seq<Event>, account: nat) returns (w: nat)
    requires InBounds(h) && account < U32_LIMIT && ReadCoverage(After(h).props, account).certified
    requires forall i | 0 <= i < |h| && h[i].Trim? :: forall k | k in h[i].dropped :: k.0 == h[i].account
    ensures w < |h| && h[w].WalkRecorded? && h[w].account == account
    ensures forall k: Address, j: nat | w < j && RaisedAt(h, j, k) && k.0 == account :: h[j].Sighted?
  {
    w := CertifyingWalk(h, account);
    hide *;
    forall k: Address, j: nat | w < j && RaisedAt(h, j, k) && k.0 == account
      ensures h[j].Sighted?
    {
      RaisedHow(h, j, k);
    }
  }

  lemma CertifyingWalk(h: seq<Event>, account: nat) returns (w: nat)
    requires InBounds(h) && account < U32_LIMIT && ReadCoverage(After(h).props, account).certified
    ensures w < |h| && h[w].WalkRecorded? && h[w].account == account
    ensures forall j: nat | w < j < |h| :: Seen(After(h[..j]), h[j]) != TrimLanded(account)
  {
    SameProps(h);
    var seen := SeenAll(h);
    NothingStored();
    hide After, Seen;
    CertificateMeansWalked(map[], seen, account);
    w :| WalkOf(seen, w, account) && NoneFrom(seen, w, TrimLanded(account)) && NoneFrom(seen, w, Cleared(account));
    SeenAt(h, w);
    WalkSeen(After(h[..w]), h[w]);
    hide *;
    forall j: nat | w < j < |h|
      ensures Seen(After(h[..j]), h[j]) != TrimLanded(account)
    {
      SeenAt(h, j);
      NoneAt(seen, w, j, TrimLanded(account));
    }
  }

  lemma NoneAt(seen: seq<Coverage.Event>, from: nat, j: nat, e: Coverage.Event)
    requires NoneFrom(seen, from, e) && from <= j < |seen|
    ensures seen[j] != e
  {
  }

  lemma WalkSeen(s: State, e: Event)
    ensures Seen(s, e).Walked? ==> e.WalkRecorded? && e.account == Seen(s, e).account
  {
  }

  lemma RaisedHow(h: seq<Event>, j: nat, k: Address)
    requires RaisedAt(h, j, k) && (h[j].Trim? ==> forall x | x in h[j].dropped :: x.0 == h[j].account)
    ensures j < |h| && (h[j].Sighted? || Seen(After(h[..j]), h[j]) == TrimLanded(k.0))
  {
    hide After;
    if h[j].Trim? {
      assert k in h[j].dropped;
    }
  }

  lemma NothingStored()
    ensures Untouched(map[])
  {
  }

  /** A walk that sees a payment above the seam certifies the account and leaves it in debt. */
  lemma CertifiedDespiteDebt(account: nat, id: nat, seam: nat, above: nat, gap: nat)
    requires seam < above && gap < U32_LIMIT
    ensures var k := (account, id);
            var s := After([Stored(k), Marked(k, seam), Sighted(k, above), WalkRecorded(account, gap, 0)]);
            && ReadCoverage(s.props, account).certified && k in s.markers && s.markers[k] == Some(seam) && k in s.debts
            && s.debts[k] == above
  {
    var k := (account, id);
    var s3 := DebtBeforeWalk(k, seam, above);
    var h3, walk := [Stored(k), Marked(k, seam), Sighted(k, above)], WalkRecorded(account, gap, 0);
    assert h3 + [walk] == [Stored(k), Marked(k, seam), Sighted(k, above), walk];
    AfterStep(h3, walk);
    StampedMeans(s3.props, account, gap);
    hide After, Stamped, ReadCoverage, OthersUntouched;
  }

  lemma DebtBeforeWalk(k: Address, seam: nat, above: nat) returns (s: State)
    ensures s == After([Stored(k), Marked(k, seam), Sighted(k, above)])
    ensures s.markers == map[k := Some(seam)] && s.debts == map[k := above]
  {
    var h1, h2 := [Stored(k)], [Stored(k), Marked(k, seam)];
    assert [] + [Stored(k)] == h1 && h1 + [Marked(k, seam)] == h2;
    assert h2 + [Sighted(k, above)] == [Stored(k), Marked(k, seam), Sighted(k, above)];
    assert After([]) == State(map[], map[], map[]);
    AfterStep([], Stored(k));
    AfterStep(h1, Marked(k, seam));
    AfterStep(h2, Sighted(k, above));
    s := After([Stored(k), Marked(k, seam), Sighted(k, above)]);
    hide After;
  }
}
