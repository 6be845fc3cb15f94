/**
 The transparent coverage certificate: a record stamped with a trim counter, and
 an incarnation counter that outlives the account it counts.
 */
module Coverage {
  import opened Wrappers
  import opened Text
  import opened Decimals

  datatype TransparentCoverage = TransparentCoverage(certified: bool, gap: nat, trim: int)

  function TrimKey(account: nat): string { "tcov_trim:" + Decimal(account) }
  function CertifiedKey(account: nat): string { "tcov_certified:" + Decimal(account) }
  function LifeKey(account: nat): string { "tcov_life:" + Decimal(account) }

  lemma KeysApart(a: nat, b: nat)
    ensures TrimKey(a) != CertifiedKey(b) && TrimKey(a) != LifeKey(b) && CertifiedKey(a) != LifeKey(b)
    ensures a != b ==> TrimKey(a) != TrimKey(b) && CertifiedKey(a) != CertifiedKey(b) && LifeKey(a) != LifeKey(b)
  {
    assert TrimKey(a)[5] == 't' && TrimKey(b)[5] == 't' && LifeKey(a)[5] == 'l' && LifeKey(b)[5] == 'l';
    assert CertifiedKey(a)[5] == 'c' && CertifiedKey(b)[5] == 'c';
    if a != b {
      if Decimal(a) == Decimal(b) {
        DecimalInjective(a, b);
      }
      assert TrimKey(a)[10..] == Decimal(a) && TrimKey(b)[10..] == Decimal(b);
      assert CertifiedKey(a)[15..] == Decimal(a) && CertifiedKey(b)[15..] == Decimal(b);
      assert LifeKey(a)[10..] == Decimal(a) && LifeKey(b)[10..] == Decimal(b);
    }
  }

  // ---------------------------------------------------------------------
  // Reading
  // ---------------------------------------------------------------------

  function ParseCoverage(stored: string): Option<(int, nat)> {
    match SplitOnce(stored, ':')
    case None => None
    case Some((t, g)) =>
      if ParseI64(t).Some? && ParseU32(g).Some? then Some((ParseI64(t).value, ParseU32(g).value)) else None
  }

  function TrimCounter(props: map<string, string>, account: nat): int {
    if TrimKey(account) in props
    && ParseI64(props[TrimKey(account)]).Some? then ParseI64(props[TrimKey(account)]).value else 0
  }

  function Incarnation(props: map<string, string>, account: nat): nat {
    if LifeKey(account) in props
    && ParseU32(props[LifeKey(account)]).Some? then ParseU32(props[LifeKey(account)]).value else 0
  }

  function Stored(props: map<string, string>, account: nat): Option<(int, nat)> {
    if CertifiedKey(account) in props then ParseCoverage(props[CertifiedKey(account)]) else None
  }

  function ReadCoverage(props: map<string, string>, account: nat): TransparentCoverage {
    var trim := TrimCounter(props, account);
    match Stored(props, account)
    case Some((stamp, gap)) => TransparentCoverage(stamp == trim, gap, trim)
    case None => TransparentCoverage(false, 0, trim)
  }

  // ---------------------------------------------------------------------
  // Writing
  // ---------------------------------------------------------------------

  function Stamped(props: map<string, string>, account: nat, gap: nat): map<string, string> {
    var recorded := if Stored(props, account).Some? then Stored(props, account).value.1 else 0;
    props[CertifiedKey(account) := Signed(TrimCounter(props,
        account)) + ":" + Decimal(if recorded > gap then recorded else gap)]
  }

  function RetiredWalks(props: map<string, string>, account: nat): map<string, string> {
    props[LifeKey(account) := Decimal((Incarnation(props, account) + 1) % U32_LIMIT)]
  }

  function ClearedCoverage(props: map<string, string>, account: nat): map<string, string> {
    RetiredWalks(props - {TrimKey(account), CertifiedKey(account)}, account)
  }

  function Bumped(props: map<string, string>, account: nat): map<string, string> {
    if TrimKey(account) in props then props[TrimKey(account) := Signed(CastInteger(props[TrimKey(account)]) + 1)]
    else props[TrimKey(account) := "1"]
  }

  /** The three rows of an account are the same in both tables. */
  ghost predicate SameRows(p: map<string, string>, p': map<string, string>, account: nat) {
    SameRow(p, p', TrimKey(account)) && SameRow(p, p', CertifiedKey(account)) && SameRow(p, p', LifeKey(account))
  }

  ghost predicate SameRow(p: map<string, string>, p': map<string, string>, key: string) {
    (key in p <==> key in p') && (key in p ==> p'[key] == p[key])
  }

  ghost predicate OthersUntouched(p: map<string, string>, p': map<string, string>, account: nat) {
    forall b | b != account :: SameRows(p, p', b)
  }

  lemma OthersAre(p: map<string, string>, p': map<string, string>, account: nat)
    requires forall key | key != TrimKey(account) && key != CertifiedKey(account) && key != LifeKey(account) ::
               SameRow(p, p', key)
    ensures OthersUntouched(p, p', account)
  {
    hide TrimKey, CertifiedKey, LifeKey, SameRow;
    forall b | b != account
      ensures SameRows(p, p', b)
    {
      KeysApart(account, b);
      KeysApart(b, account);
    }
  }

  lemma StampedMeans(props: map<string, string>, account: nat, gap: nat)
    requires gap < U32_LIMIT
    ensures var p', c := Stamped(props, account, gap), ReadCoverage(props, account);
            && ReadCoverage(p', account) == TransparentCoverage(true, Max(c.gap, gap), c.trim)
            && Incarnation(p', account) == Incarnation(props, account) && OthersUntouched(props, p', account)
  {
    KeysApart(account, account);
    var trim, c := TrimCounter(props, account), ReadCoverage(props, account);
    SignedReadBack(trim);
    ReadBack(Max(c.gap, gap));
    assert Signed(trim) + ":" == Signed(trim) + [':'];
    SplitOnceAt(Signed(trim), ':', Decimal(Max(c.gap, gap)));
    hide TrimKey, CertifiedKey, LifeKey, ParseI64, ParseU32, SplitOnce, Decimal, Signed;
    OthersAre(props, Stamped(props, account, gap), account);
  }

  lemma RetiredMeans(props: map<string, string>, account: nat)
    ensures var p' := RetiredWalks(props, account);
            && Incarnation(p', account) == (Incarnation(props, account) + 1) % U32_LIMIT
            && ReadCoverage(p', account) == ReadCoverage(props, account) && OthersUntouched(props, p', account)
  {
    KeysApart(account, account);
    ReadBack((Incarnation(props, account) + 1) % U32_LIMIT);
    hide TrimKey, CertifiedKey, LifeKey, ParseI64, ParseU32, SplitOnce, Decimal;
    OthersAre(props, RetiredWalks(props, account), account);
  }

  lemma ClearedMeans(props: map<string, string>, account: nat)
    ensures var p' := ClearedCoverage(props, account);
            && ReadCoverage(p', account) == TransparentCoverage(false, 0, 0)
            && Incarnation(p', account) == (Incarnation(props, account) + 1) % U32_LIMIT
            && OthersUntouched(props, p', account)
  {
    KeysApart(account, account);
    var p := props - {TrimKey(account), CertifiedKey(account)};
    RetiredMeans(p, account);
    hide TrimKey, CertifiedKey, LifeKey, ParseI64, ParseU32, SplitOnce, Decimal, RetiredWalks;
    assert Incarnation(p, account) == Incarnation(props, account);
    assert ReadCoverage(p, account) == TransparentCoverage(false, 0, 0);
    OthersAre(props, p, account);
    hide SameRow;
    OthersCompose(props, p, RetiredWalks(p, account), account);
  }

  /**
   A stored record counts only if it is two numbers with a colon between them; anything else reads as
   never walked.
   */
  lemma UnreadableIsUnwalked(props: map<string, string>, account: nat)
    requires CertifiedKey(account) in props
    requires forall t: string, g: string ::
               props[CertifiedKey(account)] == t + [':'] + g && ':' !in t ==> ParseI64(t).None? || ParseU32(g).None?
    ensures var c := ReadCoverage(props, account); !c.certified && c.gap == 0
  {
    var s := props[CertifiedKey(account)];
    SplitOnceMeans(s, ':');
    hide ParseI64, ParseU32;
  }

  lemma OthersCompose(p: map<string, string>, q: map<string, string>, r: map<string, string>, account: nat)
    requires OthersUntouched(p, q, account) && OthersUntouched(q, r, account)
    ensures OthersUntouched(p, r, account)
  {
    hide TrimKey, CertifiedKey, LifeKey;
    forall b | b != account
      ensures SameRows(p, r, b)
    {
      assert SameRows(p, q, b) && SameRows(q, r, b);
    }
  }

  /** The stored counter, if any, is a number that can still grow. */
  predicate Countable(props: map<string, string>, account: nat) {
    TrimKey(account) in props ==> ParseI64(props[TrimKey(account)]).Some? && TrimCounter(props, account) < I64_MAX
  }

  lemma BumpedMeans(props: map<string, string>, account: nat)
    requires Countable(props, account)
    ensures var p', c := Bumped(props, account), ReadCoverage(props, account);
            && TrimCounter(p', account) == c.trim + 1 && ReadCoverage(p', account).gap == c.gap
            && (c.certified ==> !ReadCoverage(p', account).certified)
            && Incarnation(p', account) == Incarnation(props, account) && OthersUntouched(props, p', account)
  {
    KeysApart(account, account);
    ReadBack(1);
    assert "1" == Decimal(1);
    if TrimKey(account) in props {
      CastAgrees(props[TrimKey(account)]);
      SignedReadBack(TrimCounter(props, account) + 1);
    }
    hide TrimKey, CertifiedKey, LifeKey, ParseI64, ParseU32, SplitOnce, Decimal, Signed, CastInteger;
    OthersAre(props, Bumped(props, account), account);
  }

  class PropTable {
    var props: map<string, string>

    /** Certifies the account under its live counter; the gap never shrinks. */
    method WriteTransparentCoverage(account: nat, gap: nat)
      requires gap < U32_LIMIT
      modifies this
      ensures props == Stamped(old(props), account, gap)
      ensures ReadCoverage(props, account) ==
              TransparentCoverage(true, Max(ReadCoverage(old(props), account).gap, gap),
                  TrimCounter(old(props), account))
      ensures Incarnation(props, account) == Incarnation(old(props), account)
              && OthersUntouched(old(props), props, account)
    {
      StampedMeans(props, account, gap);
      hide ReadCoverage, OthersUntouched;
      var trim := TrimCounter(props, account);
      var recorded := 0;
      if CertifiedKey(account) in props {
        match ParseCoverage(props[CertifiedKey(account)])
        case Some((_, g)) => recorded := g;
        case None =>
      }
      props := props[CertifiedKey(account) := Signed(trim) + ":" + Decimal(if recorded > gap then recorded else gap)];
    }

    method RetireTransparentWalks(account: nat)
      modifies this
      ensures props == RetiredWalks(old(props), account)
      ensures Incarnation(props, account) == (Incarnation(old(props), account) + 1) % U32_LIMIT
      ensures ReadCoverage(props, account) == ReadCoverage(old(props), account)
              && OthersUntouched(old(props), props, account)
    {
      RetiredMeans(props, account);
      var incarnation := Incarnation(props, account);
      props := props[LifeKey(account) := Decimal((incarnation + 1) % U32_LIMIT)];
    }

    /** Nothing is certified any more, and the incarnation survives as a new one. */
    method ClearTransparentCoverage(account: nat)
      modifies this
      ensures props == ClearedCoverage(old(props), account)
      ensures ReadCoverage(props, account) == TransparentCoverage(false, 0, 0)
      ensures Incarnation(props, account) == (Incarnation(old(props), account) + 1) % U32_LIMIT
      ensures OthersUntouched(old(props), props, account)
    {
      ClearedMeans(props, account);
      hide ReadCoverage, OthersUntouched, Incarnation;
      props := props - {TrimKey(account), CertifiedKey(account)};
      RetireTransparentWalks(account);
    }

    /** The counter part of a trim that removed or clamped something. */
    method BumpTrim(account: nat)
      modifies this
      ensures props == Bumped(old(props), account)
      ensures Countable(old(props), account) ==>
        && TrimCounter(props, account) == TrimCounter(old(props), account) + 1
        && ReadCoverage(props, account).gap == ReadCoverage(old(props), account).gap
        && (ReadCoverage(old(props), account).certified ==> !ReadCoverage(props, account).certified)
        && Incarnation(props, account) == Incarnation(old(props), account)
        && OthersUntouched(old(props), props, account)
    {
      if Countable(props, account) {
        BumpedMeans(props, account);
      }
      hide ReadCoverage, OthersUntouched, Incarnation, TrimCounter, Countable;
      var key := TrimKey(account);
      props := props[key := if key in props then Signed(CastInteger(props[key]) + 1) else "1"];
    }
  }

  // ---------------------------------------------------------------------
  // Runs
  // ---------------------------------------------------------------------

  /**
   A completed walk remembers the moment it began; deletions and birthday changes
   clear; resets and rewinds retire, and their trims land when they removed anything.
   */
  datatype Event =
    | Walked(account: nat, gap: nat, began: nat)
    | TrimLanded(account: nat)
    | Cleared(account: nat)
    | Retired(account: nat)
    /** Anything else: the three rows stay as they are. */
    | Unrelated(account: nat)

  function Apply(props: map<string, string>, e: Event): map<string, string> {
    match e
    case Walked(a, gap, _) => Stamped(props, a, gap)
    case TrimLanded(a) => Bumped(props, a)
    case Cleared(a) => ClearedCoverage(props, a)
    case Retired(a) => RetiredWalks(props, a)
    case Unrelated(_) => props
  }

  function After(props: map<string, string>, h: seq<Event>): map<string, string> {
    if h == [] then props else Apply(After(props, h[..|h| - 1]), h[|h| - 1])
  }

  predicate Untouched(props: map<string, string>) {
    forall a: nat | a < U32_LIMIT :: TrimKey(a) !in props && CertifiedKey(a) !in props && LifeKey(a) !in props
  }

  predicate InRange(h: seq<Event>) {
    forall i | 0 <= i < |h| :: h[i].account < U32_LIMIT && (h[i].Walked? ==> h[i].gap < U32_LIMIT)
  }

  predicate WalkOf(h: seq<Event>, i: nat, a: nat) { i < |h| && h[i].Walked? && h[i].account == a }

  /** No event of kind `e` from index `from` on. */
  predicate NoneFrom(h: seq<Event>, from: nat, e: Event) { forall j | from <= j < |h| :: h[j] != e }

  /** A walk since the last clear with no trim after it. */
  ghost predicate Certified(h: seq<Event>, a: nat) {
    exists i: nat :: WalkOf(h, i, a) && NoneFrom(h, i, TrimLanded(a)) && NoneFrom(h, i, Cleared(a))
  }

  ghost predicate LiveWalk(h: seq<Event>, i: nat, a: nat) { WalkOf(h, i, a) && NoneFrom(h, i, Cleared(a)) }

  /** `g` is the widest gap of the walks since the last clear, 0 without any. */
  ghost predicate WidestGap(h: seq<Event>, a: nat, g: nat) {
    && (forall i: nat | LiveWalk(h, i, a) :: h[i].gap <= g)
    && (g == 0 || exists i: nat :: LiveWalk(h, i, a) && h[i].gap == g)
  }

  function TrimsSinceClear(h: seq<Event>, a: nat): nat {
    if h == [] then 0
    else
      var before, e := TrimsSinceClear(h[..|h| - 1], a), h[|h| - 1];
      if e == TrimLanded(a) then before + 1 else if e == Cleared(a) then 0 else before
  }

  function Retirements(h: seq<Event>, a: nat): nat {
    if h == [] then 0
    else
      var e := h[|h| - 1];
      Retirements(h[..|h| - 1], a) + if e == Cleared(a) || e == Retired(a) then 1 else 0
  }

  lemma {:induction false} TrimsBounded(h: seq<Event>, a: nat)
    ensures TrimsSinceClear(h, a) <= |h|
  {
    if h != [] {
      TrimsBounded(h[..|h| - 1], a);
    }
  }

  /** What the three rows of one account hold. */
  datatype Record = Record(trim: Option<nat>, stamp: Option<(nat, nat)>, life: Option<nat>)

  ghost predicate Holds(props: map<string, string>, a: nat, r: Record) {
    && (r.trim.Some? <==> TrimKey(a) in props) && (r.trim.Some? ==> props[TrimKey(a)] == Decimal(r.trim.value))
    && (r.stamp.Some? <==> CertifiedKey(a) in props)
    && (r.stamp.Some? ==> props[CertifiedKey(a)] == Decimal(r.stamp.value.0) + ":" + Decimal(r.stamp.value.1))
    && (r.life.Some? <==> LifeKey(a) in props) && (r.life.Some? ==> props[LifeKey(a)] == Decimal(r.life.value))
  }

  ghost predicate Fits(r: Record) {
    && (r.trim.Some? ==> r.trim.value < I64_MAX)
    && (r.stamp.Some? ==> r.stamp.value.0 < I64_MAX && r.stamp.value.1 < U32_LIMIT)
    && (r.life.Some? ==> r.life.value < U32_LIMIT)
  }

  function Value(o: Option<nat>): nat { if o.Some? then o.value else 0 }

  /** The same step on the record of one account. */
  function Advance(r: Record, e: Event, a: nat): Record {
    if e.account != a then r
    else
      match e
      case Walked(_, gap, _) =>
        var recorded := if r.stamp.Some? then r.stamp.value.1 else 0;
        r.(stamp := Some((Value(r.trim), if recorded > gap then recorded else gap)))
      case TrimLanded(_) => r.(trim := Some(Value(r.trim) + 1))
      case Cleared(_) => Record(None, None, Some((Value(r.life) + 1) % U32_LIMIT))
      case Retired(_) => r.(life := Some((Value(r.life) + 1) % U32_LIMIT))
      case Unrelated(_) => r
  }

  lemma ReadRecord(props: map<string, string>, a: nat, r: Record)
    requires Holds(props, a, r) && Fits(r)
    ensures TrimCounter(props, a) == Value(r.trim) && Incarnation(props, a) == Value(r.life)
    ensures Stored(props, a) == if r.stamp.Some? then Some((r.stamp.value.0 as int, r.stamp.value.1)) else None
  {
    if r.trim.Some? {
      ReadBack(r.trim.value);
    }
    if r.life.Some? {
      ReadBack(r.life.value);
    }
    if r.stamp.Some? {
      ReadBack(r.stamp.value.0);
      ReadBack(r.stamp.value.1);
      assert Decimal(r.stamp.value.0) + ":" == Decimal(r.stamp.value.0) + [':'];
      SplitOnceAt(Decimal(r.stamp.value.0), ':', Decimal(r.stamp.value.1));
    }
  }

  lemma StepRecord(props: map<string, string>, a: nat, r: Record, e: Event)
    requires Holds(props, a, r) && Fits(r)
    ensures Holds(Apply(props, e), a, Advance(r, e, a))
  {
    hide Decimal, ParseCoverage, ParseI64, ParseU32, CastInteger, TrimKey, CertifiedKey, LifeKey;
    KeysApart(a, e.account);
    KeysApart(e.account, a);
    if e.account == a {
      ReadRecord(props, a, r);
      BumpReads(r);
    }
  }

  lemma BumpReads(r: Record)
    ensures r.trim.Some? ==> CastInteger(Decimal(r.trim.value)) == r.trim.value
    ensures "1" == Decimal(1)
  {
    if r.trim.Some? {
      ReadBack(r.trim.value);
    }
  }

  function RecordAfter(h: seq<Event>, a: nat): Record {
    if h == [] then Record(None, None, None) else Advance(RecordAfter(h[..|h| - 1], a), h[|h| - 1], a)
  }

  /** Appending an event keeps or ends what held of the walks before it. */
  lemma Appended(h: seq<Event>, e: Event, a: nat)
    ensures forall i | 0 <= i < |h| :: (h + [e])[i] == h[i]
    ensures forall i: nat | i < |h| ::
              NoneFrom(h + [e], i, TrimLanded(a)) <==> NoneFrom(h, i, TrimLanded(a)) && e != TrimLanded(a)
    ensures forall i: nat | i < |h| ::
              NoneFrom(h + [e], i, Cleared(a)) <==> NoneFrom(h, i, Cleared(a)) && e != Cleared(a)
    ensures forall i: nat | i < |h| :: WalkOf(h + [e], i, a) <==> WalkOf(h, i, a)
    ensures WalkOf(h + [e], |h|, a) <==> e.Walked? && e.account == a
  {
    var all := h + [e];
    forall i: nat, x | i < |h|
      ensures NoneFrom(all, i, x) <==> NoneFrom(h, i, x) && e != x
    {
      if NoneFrom(all, i, x) {
        assert all[|h|] != x;
        assert forall j | i <= j < |h| :: all[j] == h[j];
      }
    }
  }

  lemma CertifiedStep(h: seq<Event>, e: Event, a: nat)
    ensures Certified(h + [e], a) <==>
            if e.Walked? && e.account == a then true
            else Certified(h, a) && e != TrimLanded(a) && e != Cleared(a)
  {
    Appended(h, e, a);
    var all := h + [e];
    if e.Walked? && e.account == a {
      assert WalkOf(all, |h|, a) && NoneFrom(all, |h|, TrimLanded(a)) && NoneFrom(all, |h|, Cleared(a));
    } else {
      if Certified(all, a) {
        var i: nat :| WalkOf(all, i, a) && NoneFrom(all, i, TrimLanded(a)) && NoneFrom(all, i, Cleared(a));
        assert WalkOf(h, i, a);
      }
      if Certified(h, a) && e != TrimLanded(a) && e != Cleared(a) {
        var i: nat :| WalkOf(h, i, a) && NoneFrom(h, i, TrimLanded(a)) && NoneFrom(h, i, Cleared(a));
        assert WalkOf(all, i, a);
      }
    }
  }

  lemma WidestStep(h: seq<Event>, e: Event, a: nat, g: nat)
    requires WidestGap(h, a, g)
    ensures e.Walked? && e.account == a ==> WidestGap(h + [e], a, if g > e.gap then g else e.gap)
    ensures e == Cleared(a) ==> WidestGap(h + [e], a, 0)
    ensures !(e.Walked? && e.account == a) && e != Cleared(a) ==> WidestGap(h + [e], a, g)
  {
    Appended(h, e, a);
    var all := h + [e];
    if e != Cleared(a) {
      forall i: nat | i < |h|
        ensures LiveWalk(all, i, a) <==> LiveWalk(h, i, a)
      {
      }
      if g != 0 {
        var i: nat :| LiveWalk(h, i, a) && h[i].gap == g;
        assert LiveWalk(all, i, a) && all[i].gap == g;
      }
      if e.Walked? && e.account == a {
        assert LiveWalk(all, |h|, a) && all[|h|].gap == e.gap;
      }
    }
  }

  /** What the record of an account means, in terms of the events that made it. */
  ghost predicate Means(h: seq<Event>, a: nat, r: Record) {
    && Value(r.trim) == TrimsSinceClear(h, a) && Value(r.life) == Retirements(h, a) % U32_LIMIT
    && (r.stamp.Some? ==> r.stamp.value.0 <= Value(r.trim))
    && (Certified(h, a) <==> r.stamp.Some? && r.stamp.value.0 == Value(r.trim))
    && WidestGap(h, a, if r.stamp.Some? then r.stamp.value.1 else 0)
  }

  lemma {:induction false} RecordMeans(h: seq<Event>, a: nat)
    ensures Means(h, a, RecordAfter(h, a))
  {
    if h == [] {
      assert !Certified(h, a) && WidestGap(h, a, 0);
    } else {
      var front, e := h[..|h| - 1], h[|h| - 1];
      RecordMeans(front, a);
      assert h == front + [e];
      hide Means, Advance;
      MeansStep(front, e, a, RecordAfter(front, a));
    }
  }

  lemma MeansStep(h: seq<Event>, e: Event, a: nat, r: Record)
    requires Means(h, a, r)
    ensures Means(h + [e], a, Advance(r, e, a))
  {
    CountsStep(h, e, a);
    CertifiedStep(h, e, a);
    WidestStep(h, e, a, if r.stamp.Some? then r.stamp.value.1 else 0);
    hide Certified, WidestGap, TrimsSinceClear, Retirements;
    ModStep(Retirements(h, a));
  }

  lemma CountsStep(h: seq<Event>, e: Event, a: nat)
    ensures TrimsSinceClear(h + [e], a) ==
            if e == TrimLanded(a) then TrimsSinceClear(h, a) + 1 else if e == Cleared(a) then 0
              else TrimsSinceClear(h, a)
    ensures Retirements(h + [e], a) == Retirements(h, a) + if e == Cleared(a) || e == Retired(a) then 1 else 0
  {
    assert (h + [e])[..|h|] == h;
  }

  lemma ModStep(n: nat)
    ensures (n % U32_LIMIT + 1) % U32_LIMIT == (n + 1) % U32_LIMIT
  {
  }

  lemma {:induction false} RecordFits(h: seq<Event>, a: nat)
    requires InRange(h) && |h| < I64_MAX
    ensures Fits(RecordAfter(h, a)) && Value(RecordAfter(h, a).trim) <= |h|
  {
    if h != [] {
      RecordFits(h[..|h| - 1], a);
      RecordMeans(h[..|h| - 1], a);
    }
  }

  lemma {:induction false} RecordHolds(props: map<string, string>, h: seq<Event>, a: nat)
    requires Untouched(props) && InRange(h) && |h| < I64_MAX && a < U32_LIMIT
    ensures Holds(After(props, h), a, RecordAfter(h, a))
  {
    hide TrimKey, CertifiedKey, LifeKey, Apply, Advance;
    if h != [] {
      var front := h[..|h| - 1];
      RecordHolds(props, front, a);
      RecordFits(front, a);
      StepRecord(After(props, front), a, RecordAfter(front, a), h[|h| - 1]);
    }
  }

  /**
   What the certificate says after any run from a table without these rows, over
   any number of accounts: it is certified exactly when a walk completed since the
   last clear and no trim landed after it; the gap is the widest walked since then;
   the counter is the number of trims since then, and no stamp is ahead of it.
   */
  lemma CertificateMeansWalked(props: map<string, string>, h: seq<Event>, a: nat)
    requires Untouched(props) && InRange(h) && |h| < I64_MAX && a < U32_LIMIT
    ensures var c := ReadCoverage(After(props, h), a);
            && (c.certified <==> Certified(h, a)) && WidestGap(h, a, c.gap) && c.trim == TrimsSinceClear(h, a)
            && (Stored(After(props, h), a).Some? ==> Stored(After(props, h), a).value.0 <= c.trim)
  {
    RecordHolds(props, h, a);
    RecordFits(h, a);
    RecordMeans(h, a);
    ReadRecord(After(props, h), a, RecordAfter(h, a));
    hide Certified, WidestGap, RecordAfter, After, Holds, Stored;
  }

  /** The incarnation counts retirements, through clears and id reuse, modulo its width. */
  lemma IncarnationCounts(props: map<string, string>, h: seq<Event>, a: nat)
    requires Untouched(props) && InRange(h) && |h| < I64_MAX && a < U32_LIMIT
    ensures Incarnation(After(props, h), a) == Retirements(h, a) % U32_LIMIT
  {
    RecordHolds(props, h, a);
    RecordFits(h, a);
    RecordMeans(h, a);
    ReadRecord(After(props, h), a, RecordAfter(h, a));
    hide Certified, WidestGap, RecordAfter, After, Holds, Stored;
  }

  lemma {:induction false} RetirementsSplit(h: seq<Event>, later: seq<Event>, a: nat)
    ensures Retirements(h + later, a) == Retirements(h, a) + Retirements(later, a)
  {
    if later == [] {
      assert h + later == h;
    } else {
      RetirementsSplit(h, later[..|later| - 1], a);
      assert (h + later)[..|h + later| - 1] == h + later[..|later| - 1];
    }
  }

  /**
   A snapshot still matches exactly when a multiple of 2^32 retirements lies between: the first 2^32
   - 1 are all noticed.
   */
  lemma SnapshotMatchesIff(props: map<string, string>, h: seq<Event>, later: seq<Event>, a: nat)
    requires Untouched(props) && InRange(h + later) && |h + later| < I64_MAX && a < U32_LIMIT
    ensures (Incarnation(After(props, h), a) == Incarnation(After(props, h + later), a)) <==>
              Retirements(later, a) % U32_LIMIT == 0
  {
    hide *;
    InRangePrefix(h, later);
    assert |h| <= |h + later|;
    IncarnationCounts(props, h, a);
    IncarnationCounts(props, h + later, a);
    RetirementsSplit(h, later, a);
    SameRemainder(Retirements(h, a), Retirements(later, a));
  }

  lemma InRangePrefix(h: seq<Event>, later: seq<Event>)
    requires InRange(h + later)
    ensures InRange(h)
  {
    assert forall i | 0 <= i < |h| :: (h + later)[i] == h[i];
  }

  lemma SameRemainder(n: nat, k: nat)
    ensures n % U32_LIMIT == (n + k) % U32_LIMIT <==> k % U32_LIMIT == 0
  {
  }

  // ---------------------------------------------------------------------
  // Walks that overlap other events
  // ---------------------------------------------------------------------

  /** The last critical section of a walk records it only if identity and trim counter are those it began with. */
  ghost predicate Admitted(props: map<string, string>, h: seq<Event>, i: nat)
    requires i < |h| && h[i].Walked?
  {
    && h[i].began <= i
    && Incarnation(After(props, h[..h[i].began]), h[i].account) == Incarnation(After(props, h[..i]), h[i].account)
    && TrimCounter(After(props, h[..h[i].began]), h[i].account) == TrimCounter(After(props, h[..i]), h[i].account)
  }

  ghost predicate GuardedRun(props: map<string, string>, h: seq<Event>) {
    forall i: nat | i < |h| && h[i].Walked? :: Admitted(props, h, i)
  }

  lemma {:induction false} NoRetirementsNoClear(later: seq<Event>, a: nat)
    requires Retirements(later, a) == 0
    ensures forall j | 0 <= j < |later| :: later[j] != Cleared(a) && later[j] != Retired(a)
  {
    if later != [] {
      NoRetirementsNoClear(later[..|later| - 1], a);
      assert forall j | 0 <= j < |later| - 1 :: later[..|later| - 1][j] == later[j];
    }
  }

  /** Without clears in between, the counter only grows, by one for each trim. */
  lemma {:induction false} TrimsGrow(h: seq<Event>, later: seq<Event>, a: nat)
    requires forall j | 0 <= j < |later| :: later[j] != Cleared(a)
    ensures TrimsSinceClear(h + later, a) >= TrimsSinceClear(h, a)
    ensures TrimsSinceClear(h + later, a) == TrimsSinceClear(h, a) ==>
              forall j | 0 <= j < |later| :: later[j] != TrimLanded(a)
  {
    if later == [] {
      assert h + later == h;
    } else {
      var front := later[..|later| - 1];
      assert forall j | 0 <= j < |front| :: front[j] == later[j];
      TrimsGrow(h, front, a);
      assert (h + later)[..|h + later| - 1] == h + front;
    }
  }

  /** An event that neither trims, nor clears, nor retires the account. */
  predicate Quiet(e: Event, a: nat) { e != TrimLanded(a) && e != Cleared(a) && e != Retired(a) }

  /**
   Two moments with the same identity and the same trim counter, fewer than 2^32 retirements apart,
   have nothing between them.
   */
  lemma Undisturbed(props: map<string, string>, start: seq<Event>, later: seq<Event>, a: nat)
    requires Untouched(props) && InRange(start) && InRange(start + later) && |start + later| < I64_MAX && a < U32_LIMIT
    requires Retirements(later, a) < U32_LIMIT
    requires Incarnation(After(props, start), a) == Incarnation(After(props, start + later), a)
    requires TrimCounter(After(props, start), a) == TrimCounter(After(props, start + later), a)
    ensures forall j | 0 <= j < |later| :: Quiet(later[j], a)
  {
    assert |start| <= |start + later|;
    SnapshotMatchesIff(props, start, later, a);
    NoMultiple(Retirements(later, a));
    hide *;
    NoRetirementsNoClear(later, a);
    TrimIs(props, start, a);
    TrimIs(props, start + later, a);
    TrimsGrow(start, later, a);
    QuietAll(later, a);
  }

  lemma QuietAll(later: seq<Event>, a: nat)
    requires forall j | 0 <= j < |later| :: later[j] != Cleared(a) && later[j] != Retired(a)
    requires forall j | 0 <= j < |later| :: later[j] != TrimLanded(a)
    ensures forall j | 0 <= j < |later| :: Quiet(later[j], a)
  {
  }

  lemma NoMultiple(k: nat)
    requires k < U32_LIMIT && k % U32_LIMIT == 0
    ensures k == 0
  {
  }

  /** The walk at `i` took less than 2^32 retirements of its account. */
  predicate Timely(h: seq<Event>, i: nat)
    requires i < |h| && h[i].Walked?
  {
    h[i].began <= i ==> Retirements(h[h[i].began..i], h[i].account) < U32_LIMIT
  }

  /** While a recorded walk ran, nothing was trimmed, cleared or retired under it. */
  lemma RecordedWalkUndisturbed(props: map<string, string>, h: seq<Event>, i: nat)
    requires Untouched(props) && InRange(h) && |h| < I64_MAX && GuardedRun(props, h) && i < |h| && h[i].Walked?
             && Timely(h, i)
    ensures h[i].began <= i && forall j | h[i].began <= j < i :: Quiet(h[j], h[i].account)
  {
    var a, s := h[i].account, h[i].began;
    AdmittedAt(props, h, i);
    assert Retirements(h[s..i], a) < U32_LIMIT;
    hide *;
    SlicesJoin(h, s, i);
    Undisturbed(props, h[..s], h[s..i], a);
    Shifted(h, s, i, a);
  }

  lemma SlicesJoin(h: seq<Event>, s: nat, i: nat)
    requires s <= i <= |h|
    ensures h[..s] + h[s..i] == h[..i]
  {
  }

  lemma Shifted(h: seq<Event>, s: nat, i: nat, a: nat)
    requires s <= i <= |h| && forall j | 0 <= j < |h[s..i]| :: Quiet(h[s..i][j], a)
    ensures forall j | s <= j < i :: Quiet(h[j], a)
  {
    hide Quiet;
    forall j | s <= j < i
      ensures Quiet(h[j], a)
    {
      assert h[s..i][j - s] == h[j];
    }
  }

  lemma AdmittedAt(props: map<string, string>, h: seq<Event>, i: nat)
    requires InRange(h) && |h| < I64_MAX && GuardedRun(props, h) && i < |h| && h[i].Walked?
    ensures var a, s := h[i].account, h[i].began;
            && s <= i && a < U32_LIMIT && InRange(h[..s]) && InRange(h[..i]) && |h[..i]| < I64_MAX
            && Incarnation(After(props, h[..s]), a) == Incarnation(After(props, h[..i]), a)
            && TrimCounter(After(props, h[..s]), a) == TrimCounter(After(props, h[..i]), a)
  {
    hide After, Incarnation, TrimCounter;
    assert Admitted(props, h, i);
  }

  lemma TrimIs(props: map<string, string>, h: seq<Event>, a: nat)
    requires Untouched(props) && InRange(h) && |h| < I64_MAX && a < U32_LIMIT
    ensures TrimCounter(After(props, h), a) == TrimsSinceClear(h, a)
  {
    CertificateMeansWalked(props, h, a);
  }

  /**
   In every run whose walks pass the guard, a certificate stands on a walk that
   nothing disturbed: no trim and no clear since it began, no retirement while it ran.
   */
  lemma CertificateIsSound(props: map<string, string>, h: seq<Event>, a: nat) returns (i: nat)
    requires Untouched(props) && InRange(h) && |h| < I64_MAX && GuardedRun(props, h) && a < U32_LIMIT
    requires forall i: nat | WalkOf(h, i, a) :: Timely(h, i)
    requires ReadCoverage(After(props, h), a).certified
    ensures WalkOf(h, i, a) && h[i].began <= i
    ensures forall j | h[i].began <= j < |h| :: h[j] != TrimLanded(a) && h[j] != Cleared(a)
    ensures forall j | h[i].began <= j < i :: h[j] != Retired(a)
  {
    CertificateMeansWalked(props, h, a);
    i :| WalkOf(h, i, a) && NoneFrom(h, i, TrimLanded(a)) && NoneFrom(h, i, Cleared(a));
    RecordedWalkUndisturbed(props, h, i);
  }
}
