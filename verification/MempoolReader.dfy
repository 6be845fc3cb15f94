/**
 The native mempool reader: the order of the events it sends, its one verdict,
 and the amounts it reports per account.
 */
module MempoolReader {
  import opened Wrappers

  datatype MempoolNote = MempoolNote(account: nat, name: string, value: int, pool: nat)
  datatype MempoolAmount = MempoolAmount(account: nat, name: string, value: int)

  datatype Event =
    | Epoch(height: nat)
    | Unconfirmed(txid: string, amounts: seq<MempoolAmount>, notes: seq<MempoolNote>)
    | Ended(error: Option<string>)

  // ---------------------------------------------------------------------
  // The grammar of a log
  // ---------------------------------------------------------------------

  /** A height and the transactions seen while it was current. */
  datatype Era = Era(height: nat, txs: seq<Event>)

  ghost predicate EraOk(e: Era) { forall i | 0 <= i < |e.txs| :: e.txs[i].Unconfirmed? }

  function Flatten(eras: seq<Era>): seq<Event> {
    if eras == [] then []
    else Flatten(eras[..|eras| - 1]) + [Epoch(eras[|eras| - 1].height)] + eras[|eras| - 1].txs
  }

  /** (Epoch Unconfirmed*)* */
  ghost predicate Observation(log: seq<Event>) {
    exists eras: seq<Era> :: Flatten(eras) == log && forall i | 0 <= i < |eras| :: EraOk(eras[i])
  }

  /** (Epoch Unconfirmed*)* Ended, with the one Ended at the end. */
  ghost predicate Finished(log: seq<Event>) {
    |log| > 0 && log[|log| - 1].Ended? && Observation(log[..|log| - 1])
  }

  lemma NothingObserved()
    ensures Observation([])
  {
    assert Flatten([]) == [];
  }

  lemma EpochObserved(log: seq<Event>, height: nat)
    requires Observation(log)
    ensures Observation(log + [Epoch(height)])
  {
    var eras: seq<Era> :| Flatten(eras) == log && forall i | 0 <= i < |eras| :: EraOk(eras[i]);
    var more := eras + [Era(height, [])];
    assert more[..|more| - 1] == eras;
    assert Flatten(more) == log + [Epoch(height)] + [];
    assert log + [Epoch(height)] + [] == log + [Epoch(height)];
  }

  function WithTx(eras: seq<Era>, tx: Event): seq<Era>
    requires eras != []
  {
    eras[..|eras| - 1] + [Era(eras[|eras| - 1].height, eras[|eras| - 1].txs + [tx])]
  }

  lemma FlattenWithTx(eras: seq<Era>, tx: Event)
    requires eras != []
    ensures Flatten(WithTx(eras, tx)) == Flatten(eras) + [tx]
  {
    var n := |eras| - 1;
    var more := WithTx(eras, tx);
    assert more[..|more| - 1] == eras[..n];
    var before := Flatten(eras[..n]) + [Epoch(eras[n].height)];
    assert before + (eras[n].txs + [tx]) == before + eras[n].txs + [tx];
  }

  lemma TxObserved(log: seq<Event>, tx: Event)
    requires Observation(log) && log != [] && tx.Unconfirmed?
    ensures Observation(log + [tx])
  {
    var eras: seq<Era> :| Flatten(eras) == log && forall i | 0 <= i < |eras| :: EraOk(eras[i]);
    assert eras != [];
    FlattenWithTx(eras, tx);
    hide Flatten;
    var more := WithTx(eras, tx);
    forall i | 0 <= i < |more|
      ensures EraOk(more[i])
    {
      assert EraOk(eras[i]);
    }
  }

  lemma {:induction false} NoEndInside(eras: seq<Era>)
    requires forall i | 0 <= i < |eras| :: EraOk(eras[i])
    ensures forall i | 0 <= i < |Flatten(eras)| :: !Flatten(eras)[i].Ended?
  {
    if eras != [] {
      assert EraOk(eras[|eras| - 1]);
      NoEndInside(eras[..|eras| - 1]);
    }
  }

  /** A finished log has exactly one Ended, the last event; an observation has none. */
  lemma OneEnd(log: seq<Event>)
    ensures Observation(log) ==> forall i | 0 <= i < |log| :: !log[i].Ended?
    ensures Finished(log) ==> forall i | 0 <= i < |log| :: log[i].Ended? <==> i == |log| - 1
  {
    if Observation(log) {
      var eras: seq<Era> :| Flatten(eras) == log && forall i | 0 <= i < |eras| :: EraOk(eras[i]);
      NoEndInside(eras);
    }
    if Finished(log) {
      var front := log[..|log| - 1];
      var eras: seq<Era> :| Flatten(eras) == front && forall i | 0 <= i < |eras| :: EraOk(eras[i]);
      NoEndInside(eras);
      assert forall i | 0 <= i < |front| :: log[i] == front[i];
    }
  }

  // ---------------------------------------------------------------------
  // The amounts of a transaction
  // ---------------------------------------------------------------------

  function GroupOf(n: MempoolNote): (nat, string) { (n.account, n.name) }

  function ValueOf(notes: seq<MempoolNote>, group: (nat, string)): int {
    if notes == [] then 0
    else ValueOf(notes[..|notes| - 1], group) + if GroupOf(notes[|notes| - 1]) == group then notes[|notes| - 1].value
      else 0
  }

  function Total(notes: seq<MempoolNote>): int {
    if notes == [] then 0 else Total(notes[..|notes| - 1]) + notes[|notes| - 1].value
  }

  function AmountTotal(amounts: seq<MempoolAmount>): int {
    if amounts == [] then 0 else AmountTotal(amounts[..|amounts| - 1]) + amounts[|amounts| - 1].value
  }

  predicate HasGroup(notes: seq<MempoolNote>, group: (nat, string)) {
    exists i :: 0 <= i < |notes| && GroupOf(notes[i]) == group
  }

  function AmountGroups(amounts: seq<MempoolAmount>): seq<(nat, string)> {
    seq(|amounts|, i requires 0 <= i < |amounts| => (amounts[i].account, amounts[i].name))
  }

  /** One entry for each (account, name) among the notes, with the sum of its values. */
  ghost predicate Grouped(notes: seq<MempoolNote>, amounts: seq<MempoolAmount>) {
    && (forall i, j | 0 <= i < j < |amounts| :: AmountGroups(amounts)[i] != AmountGroups(amounts)[j])
    && (forall g :: g in AmountGroups(amounts) <==> HasGroup(notes, g))
    && (forall i | 0 <= i < |amounts| :: amounts[i].value == ValueOf(notes, (amounts[i].account, amounts[i].name)))
  }

  /** The hash map of a group-by. */
  ghost predicate GroupMap(notes: seq<MempoolNote>, groups: map<(nat, string), int>) {
    && (forall g :: g in groups <==> HasGroup(notes, g))
    && (forall g | g in groups :: groups[g] == ValueOf(notes, g))
  }

  lemma {:induction false} ValueOfNew(notes: seq<MempoolNote>, group: (nat, string))
    requires !HasGroup(notes, group)
    ensures ValueOf(notes, group) == 0
  {
    if notes != [] {
      var front := notes[..|notes| - 1];
      assert forall i | 0 <= i < |front| :: front[i] == notes[i];
      assert GroupOf(notes[|notes| - 1]) != group;
      ValueOfNew(front, group);
    }
  }

  lemma GroupStep(notes: seq<MempoolNote>, n: MempoolNote, groups: map<(nat, string), int>)
    requires GroupMap(notes, groups)
    ensures GroupMap(notes + [n], groups[GroupOf(n) :=
                (if GroupOf(n) in groups then groups[GroupOf(n)] else 0) + n.value])
  {
    var all := notes + [n];
    assert all[..|all| - 1] == notes && all[|notes|] == n;
    assert forall i | 0 <= i < |notes| :: all[i] == notes[i];
    forall g
      ensures HasGroup(all, g) <==> HasGroup(notes, g) || g == GroupOf(n)
    {
      if HasGroup(notes, g) {
        var i :| 0 <= i < |notes| && GroupOf(notes[i]) == g;
        assert GroupOf(all[i]) == g;
      }
      if g == GroupOf(n) {
        assert GroupOf(all[|notes|]) == g;
      }
    }
    if !HasGroup(notes, GroupOf(n)) {
      ValueOfNew(notes, GroupOf(n));
    }
  }

  method GroupAmounts(notes: seq<MempoolNote>) returns (amounts: seq<MempoolAmount>)
    ensures Grouped(notes, amounts)
  {
    hide HasGroup, ValueOf;
    assert GroupMap([], map[]) by { NoGroups(); }
    var groups: map<(nat, string), int> := map[];
    for i := 0 to |notes|
      invariant GroupMap(notes[..i], groups)
    {
      var n := notes[i];
      GroupStep(notes[..i], n, groups);
      assert notes[..i + 1] == notes[..i] + [n];
      groups := groups[GroupOf(n) := (if GroupOf(n) in groups then groups[GroupOf(n)] else 0) + n.value];
    }
    assert notes[..|notes|] == notes;
    amounts := ListAmounts(groups);
  }

  lemma NoGroups()
    ensures GroupMap([], map[])
  {
  }

  /** The entries of the hash map, in no particular order. */
  method ListAmounts(groups: map<(nat, string), int>) returns (amounts: seq<MempoolAmount>)
    ensures forall i, j | 0 <= i < j < |amounts| :: AmountGroups(amounts)[i] != AmountGroups(amounts)[j]
    ensures forall g :: g in AmountGroups(amounts) <==> g in groups
    ensures forall i | 0 <= i < |amounts| ::
              (amounts[i].account, amounts[i].name) in groups
              && amounts[i].value == groups[(amounts[i].account, amounts[i].name)]
  {
    var todo := groups.Keys;
    amounts := [];
    while todo != {}
      invariant todo <= groups.Keys
      invariant forall g :: g in AmountGroups(amounts) <==> g in groups && g !in todo
      invariant forall i, j | 0 <= i < j < |amounts| :: AmountGroups(amounts)[i] != AmountGroups(amounts)[j]
      invariant forall i | 0 <= i < |amounts| ::
                  (amounts[i].account, amounts[i].name) in groups
                  && amounts[i].value == groups[(amounts[i].account, amounts[i].name)]
      decreases |todo|
    {
      var g :| g in todo;
      todo := todo - {g};
      ghost var before := AmountGroups(amounts);
      amounts := amounts + [MempoolAmount(g.0, g.1, groups[g])];
      assert AmountGroups(amounts) == before + [g];
    }
  }

  // ---------------------------------------------------------------------
  // Conservation, and when an account has a single entry
  // ---------------------------------------------------------------------

  /** The value of the notes that belong to one of the groups. */
  function ValueIn(notes: seq<MempoolNote>, groups: seq<(nat, string)>): int {
    if notes == [] then 0
    else ValueIn(notes[..|notes| - 1], groups) + if GroupOf(notes[|notes| - 1]) in groups then notes[|notes| - 1].value
      else 0
  }

  lemma {:induction false} ValueInSnoc(notes: seq<MempoolNote>, groups: seq<(nat, string)>, g: (nat, string))
    requires g !in groups
    ensures ValueIn(notes, groups + [g]) == ValueIn(notes, groups) + ValueOf(notes, g)
  {
    if notes != [] {
      ValueInSnoc(notes[..|notes| - 1], groups, g);
    }
  }

  lemma {:induction false} ValueInNone(notes: seq<MempoolNote>)
    ensures ValueIn(notes, []) == 0
  {
    if notes != [] {
      ValueInNone(notes[..|notes| - 1]);
    }
  }

  lemma {:induction false} AmountsAddUp(notes: seq<MempoolNote>, amounts: seq<MempoolAmount>)
    requires forall i, j | 0 <= i < j < |amounts| :: AmountGroups(amounts)[i] != AmountGroups(amounts)[j]
    requires forall i | 0 <= i < |amounts| :: amounts[i].value == ValueOf(notes, (amounts[i].account, amounts[i].name))
    ensures AmountTotal(amounts) == ValueIn(notes, AmountGroups(amounts))
  {
    if amounts == [] {
      ValueInNone(notes);
    } else {
      var front, last := amounts[..|amounts| - 1], amounts[|amounts| - 1];
      assert AmountGroups(amounts) == AmountGroups(front) + [(last.account, last.name)];
      assert forall i | 0 <= i < |front| :: AmountGroups(front)[i] == AmountGroups(amounts)[i];
      assert (last.account, last.name) == AmountGroups(amounts)[|front|];
      AmountsAddUp(notes, front);
      ValueInSnoc(notes, AmountGroups(front), (last.account, last.name));
    }
  }

  lemma {:induction false} ValueInAll(notes: seq<MempoolNote>, groups: seq<(nat, string)>)
    requires forall i | 0 <= i < |notes| :: GroupOf(notes[i]) in groups
    ensures ValueIn(notes, groups) == Total(notes)
  {
    if notes != [] {
      assert GroupOf(notes[|notes| - 1]) in groups;
      ValueInAll(notes[..|notes| - 1], groups);
    }
  }

  /** Nothing is lost or counted twice: the amounts of a transaction add up to its notes. */
  lemma AmountsConserveValue(notes: seq<MempoolNote>, amounts: seq<MempoolAmount>)
    requires Grouped(notes, amounts)
    ensures AmountTotal(amounts) == Total(notes)
  {
    AmountsAddUp(notes, amounts);
    forall i | 0 <= i < |notes|
      ensures GroupOf(notes[i]) in AmountGroups(amounts)
    {
      assert HasGroup(notes, GroupOf(notes[i]));
    }
    ValueInAll(notes, AmountGroups(amounts));
  }

  /** All notes of an account carry the same name. */
  ghost predicate NamesAgree(notes: seq<MempoolNote>) {
    forall i, j | 0 <= i < |notes| && 0 <= j < |notes| && notes[i].account == notes[j].account ::
      notes[i].name == notes[j].name
  }

  ghost predicate OneEntryEach(amounts: seq<MempoolAmount>) {
    forall i, j | 0 <= i < j < |amounts| :: amounts[i].account != amounts[j].account
  }

  lemma SameEntry(amounts: seq<MempoolAmount>, a: nat, b: nat)
    requires OneEntryEach(amounts) && a < |amounts| && b < |amounts| && amounts[a].account == amounts[b].account
    ensures a == b
  {
  }

  /**
   An account has one entry exactly when its notes agree on its name; the names of
   spent and of received notes are read at different moments, so they need not.
   */
  lemma OneEntryIffNamesAgree(notes: seq<MempoolNote>, amounts: seq<MempoolAmount>)
    requires Grouped(notes, amounts)
    ensures OneEntryEach(amounts) <==> NamesAgree(notes)
  {
    var groups := AmountGroups(amounts);
    if NamesAgree(notes) {
      forall i, j | 0 <= i < j < |amounts|
        ensures amounts[i].account != amounts[j].account
      {
        assert groups[i] in groups && groups[j] in groups;
        var a :| 0 <= a < |notes| && GroupOf(notes[a]) == groups[i];
        var b :| 0 <= b < |notes| && GroupOf(notes[b]) == groups[j];
        assert groups[i] != groups[j];
      }
    }
    if OneEntryEach(amounts) {
      forall i, j | 0 <= i < |notes| && 0 <= j < |notes| && notes[i].account == notes[j].account
        ensures notes[i].name == notes[j].name
      {
        assert HasGroup(notes, GroupOf(notes[i])) && HasGroup(notes, GroupOf(notes[j]));
        var a :| 0 <= a < |amounts| && groups[a] == GroupOf(notes[i]);
        var b :| 0 <= b < |amounts| && groups[b] == GroupOf(notes[j]);
        SameEntry(amounts, a, b);
      }
    }
  }

  /** A rename between reading the keys and decoding a self-transfer gives the account two entries. */
  lemma RenamedAccountHasTwo(account: nat, old_: string, new_: string, spent: int, received: int)
    requires old_ != new_
    ensures var notes := [MempoolNote(account, new_, -spent, 2), MempoolNote(account, old_, received, 2)];
            forall amounts | Grouped(notes, amounts) :: !OneEntryEach(amounts)
  {
    var notes := [MempoolNote(account, new_, -spent, 2), MempoolNote(account, old_, received, 2)];
    assert notes[0].account == notes[1].account && notes[0].name != notes[1].name;
    forall amounts | Grouped(notes, amounts)
      ensures !OneEntryEach(amounts)
    {
      OneEntryIffNamesAgree(notes, amounts);
    }
  }

  // ---------------------------------------------------------------------
  // One reader
  // ---------------------------------------------------------------------

  /** The sending side of the event queue, shared by the reader's sink and its verdict. */
  class Channel {
    var log: seq<Event>

    constructor ()
      ensures log == []
    {
      log := [];
    }

    method Send(e: Event)
      modifies this
      ensures log == old(log) + [e]
    {
      log := log + [e];
    }
  }

  const PANICKED: string := "mempool reader panicked"

  /** The right to report how the run finished; the sender is taken on first use. */
  class Verdict {
    var sender: Option<Channel>

    constructor (channel: Channel)
      ensures sender == Some(channel)
    {
      sender := Some(channel);
    }

    /** Reports the outcome; the value is consumed, so its destructor runs at the end. */
    method Send(e: Event)
      requires sender.Some?
      modifies this, sender.value
      ensures sender.None? && old(sender).value.log == old(sender.value.log) + [e]
    {
      var channel := sender.value;
      sender := None;
      channel.Send(e);
      Drop();
    }

    /** The destructor: the reader can only get here unreported by unwinding. */
    method Drop()
      modifies this, if sender.Some? then {sender.value} else {}
      ensures sender.None?
      ensures old(sender).Some? ==>
                old(sender).value.log == old(if sender.Some? then sender.value.log else []) + [Ended(Some(PANICKED))]
    {
      match sender
      case Some(channel) =>
        sender := None;
        channel.Send(Ended(Some(PANICKED)));
      case None =>
    }
  }

  ghost predicate AmountsGrouped(log: seq<Event>) {
    forall i | 0 <= i < |log| && log[i].Unconfirmed? :: Grouped(log[i].notes, log[i].amounts)
  }

  /** What the environment answers, one entry for each await of the reader. */
  datatype Input =
    | Height(height: nat)
    | Opened
    | Tx(txid: string, notes: seq<MempoolNote>)
    | StreamEnd
    | Cancelled
    | Failed(error: string)
    | Panics

  datatype Outcome = Returned(error: Option<string>) | Unwound | Waiting

  /** Between heights, with the stream being opened, draining it, and after the verdict. */
  datatype Phase = Loading | Opening | Streaming | Over

  /** Where an answer takes the reader; one that does not fit the await ends it. */
  function Advanced(p: Phase, a: Input): Phase {
    match (p, a)
    case (Loading, Height(_)) => Opening
    case (Opening, Opened) => Streaming
    case (Streaming, Tx(_, _)) => Streaming
    case (Streaming, StreamEnd) => Loading
    case _ => Over
  }

  function PhaseAfter(answers: seq<Input>): Phase {
    if answers == [] then Loading else Advanced(PhaseAfter(answers[..|answers| - 1]), answers[|answers| - 1])
  }

  /** The heights and transactions among the answers, in order. */
  function Reportable(answers: seq<Input>): seq<Input> {
    if answers == [] then []
    else
      var a := answers[|answers| - 1];
      Reportable(answers[..|answers| - 1]) + if a.Height? || a.Tx? then [a] else []
  }

  /** The answer an event was made from. */
  function OriginOf(e: Event): Input {
    match e
    case Epoch(height) => Height(height)
    case Unconfirmed(txid, _, notes) => Tx(txid, notes)
    case Ended(error) => if error.Some? then Failed(error.value) else Cancelled
  }

  function Origins(log: seq<Event>): seq<Input> {
    seq(|log|, i requires 0 <= i < |log| => OriginOf(log[i]))
  }

  /** The log is made from the first `used` answers: each height and transaction once, in order, and nothing else. */
  ghost predicate Transcribed(log: seq<Event>, answers: seq<Input>, used: nat) {
    used <= |answers| && Origins(log) == Reportable(answers[..used]) && !PhaseAfter(answers[..used]).Over?
  }

  /** Why a reader ends at an answer: it panics, a cancellation is seen, or the await fails. */
  predicate EndsWith(p: Phase, a: Input, outcome: Outcome) {
    match outcome
    case Unwound => a.Panics?
    case Returned(None) => a.Cancelled? && (p.Opening? || p.Streaming?)
    case Returned(Some(_)) => !a.Panics? && !Awaited(p, a) && (a.Cancelled? ==> p.Loading?)
    case Waiting => false
  }

  /** A height when loading, a stream when opening, a transaction or the end of the stream when draining it. */
  predicate Awaited(p: Phase, a: Input) {
    || (p.Loading? && a.Height?) || (p.Opening? && a.Opened?) || (p.Streaming? && (a.Tx? || a.StreamEnd?))
  }

  /** It loads at the start and behind the end of a stream, opens behind a height, and drains the stream otherwise. */
  lemma PhaseMeans(answers: seq<Input>)
    ensures var p := PhaseAfter(answers);
            p.Over? || p == if answers == [] || answers[|answers| - 1].StreamEnd? then Loading
                            else if answers[|answers| - 1].Height? then Opening else Streaming
  {
  }

  ghost predicate AwaitedAt(answers: seq<Input>, i: nat)
    requires i < |answers|
  {
    Awaited(PhaseAfter(answers[..i]), answers[i])
  }

  /** A reader lives as long as each answer is the awaited one. */
  lemma {:induction false} AliveIff(answers: seq<Input>)
    ensures !PhaseAfter(answers).Over? <==> forall i: nat | i < |answers| :: AwaitedAt(answers, i)
  {
    if answers != [] {
      var n := |answers| - 1;
      var front := answers[..n];
      AliveIff(front);
      PhaseStep(answers, n);
      assert answers[..n + 1] == answers;
      AwaitedIff(PhaseAfter(front), answers[n]);
      assert AwaitedAt(answers, n) <==> Awaited(PhaseAfter(front), answers[n]);
      forall i: nat | i < n
        ensures AwaitedAt(front, i) <==> AwaitedAt(answers, i)
      {
        assert front[..i] == answers[..i] && front[i] == answers[i];
      }
      hide *;
      assert !PhaseAfter(front).Over? <==> forall i: nat | i < n :: AwaitedAt(answers, i);
    }
  }

  lemma AwaitedIff(p: Phase, a: Input)
    ensures Awaited(p, a) <==> !Advanced(p, a).Over?
  {
  }

  /** A reader is waiting only when the answers are used up, and over only for one of these reasons. */
  ghost predicate OutcomeFits(answers: seq<Input>, used: nat, outcome: Outcome)
    requires used <= |answers|
  {
    if outcome.Waiting? then used == |answers|
    else used < |answers| && EndsWith(PhaseAfter(answers[..used]), answers[used], outcome)
  }

  lemma PhaseStep(answers: seq<Input>, i: nat)
    requires i < |answers|
    ensures PhaseAfter(answers[..i + 1]) == Advanced(PhaseAfter(answers[..i]), answers[i])
  {
    assert answers[..i + 1][..i] == answers[..i];
  }

  lemma NothingTranscribed(answers: seq<Input>)
    ensures Transcribed([], answers, 0)
  {
    assert answers[..0] == [];
  }

  lemma Told(log: seq<Event>, answers: seq<Input>, used: nat, e: Event)
    requires Transcribed(log, answers, used) && used < |answers|
    requires !Advanced(PhaseAfter(answers[..used]), answers[used]).Over?
    requires answers[used] == OriginOf(e) && !e.Ended?
    ensures Transcribed(log + [e], answers, used + 1)
  {
    assert answers[..used + 1][..used] == answers[..used];
    assert Origins(log + [e]) == Origins(log) + [OriginOf(e)];
  }

  lemma Untold(log: seq<Event>, answers: seq<Input>, used: nat)
    requires Transcribed(log, answers, used) && used < |answers|
    requires !Advanced(PhaseAfter(answers[..used]), answers[used]).Over?
    requires !answers[used].Height? && !answers[used].Tx?
    ensures Transcribed(log, answers, used + 1)
  {
    assert answers[..used + 1][..used] == answers[..used];
  }

  /**
   Keys and height are read, the height sent, the stream opened and drained; a
   stream that ends starts over. Answers that do not fit the await stand for failures.
   */
  method RunMempool(sink: Channel, answers: seq<Input>) returns (outcome: Outcome, ghost used: nat)
    requires sink.log == []
    modifies sink
    ensures Observation(sink.log) && AmountsGrouped(sink.log)
    ensures Transcribed(sink.log, answers, used) && OutcomeFits(answers, used, outcome)
    ensures outcome == Returned(None) ==> Cancelled in answers
  {
    hide Observation, Grouped, Transcribed, PhaseAfter;
    NothingObserved();
    NothingTranscribed(answers);
    assert PhaseAfter(answers[..0]) == Loading by { NoAnswers(answers); }
    var i := 0;
    outcome, used := Waiting, 0;
    while i < |answers|
      invariant i <= |answers| && outcome == Waiting && Observation(sink.log) && AmountsGrouped(sink.log)
      invariant used == i && Transcribed(sink.log, answers, i)
      invariant PhaseAfter(answers[..i]) == Loading || i == |answers|
    {
      if answers[i].Panics? {
        return Unwound, used;
      }
      if !answers[i].Height? {
        return Returned(Some("latest_height")), used;
      }
      EpochObserved(sink.log, answers[i].height);
      Told(sink.log, answers, i, Epoch(answers[i].height));
      PhaseStep(answers, i);
      sink.Send(Epoch(answers[i].height));
      i, used := i + 1, used + 1;
      if i == |answers| {
        return Waiting, used;
      }
      if answers[i].Cancelled? {
        return Returned(None), used;
      }
      if answers[i].Panics? {
        return Unwound, used;
      }
      if !answers[i].Opened? {
        return Returned(Some("mempool_stream")), used;
      }
      Untold(sink.log, answers, i);
      PhaseStep(answers, i);
      i, used := i + 1, used + 1;
      var streaming := true;
      while streaming && i < |answers|
        invariant i <= |answers| && outcome == Waiting && Observation(sink.log) && AmountsGrouped(sink.log)
                  && sink.log != []
        invariant used == i && Transcribed(sink.log, answers, i)
        invariant PhaseAfter(answers[..i]) == if streaming then Streaming else Loading
        decreases |answers| - i, streaming
      {
        match answers[i] {
          case Cancelled => return Returned(None), used;
          case Panics => return Unwound, used;
          case StreamEnd =>
            streaming := false;
            Untold(sink.log, answers, i);
          case Tx(txid, notes) =>
            var amounts := GroupAmounts(notes);
            TxObserved(sink.log, Unconfirmed(txid, amounts, notes));
            Told(sink.log, answers, i, Unconfirmed(txid, amounts, notes));
            sink.Send(Unconfirmed(txid, amounts, notes));
          case _ => return Returned(Some("mempool_stream")), used;
        }
        PhaseStep(answers, i);
        i, used := i + 1, used + 1;
      }
    }
  }

  lemma NoAnswers(answers: seq<Input>)
    ensures PhaseAfter(answers[..0]) == Loading
  {
  }

  /** The verdict of a reader that ended so. */
  function VerdictOf(outcome: Outcome): Event
    requires !outcome.Waiting?
  {
    Ended(if outcome.Unwound? then Some(PANICKED) else outcome.error)
  }

  /**
   The spawned task: whatever the answers, a reader that is over has left exactly one Ended, at the
   end of its log, that says why it ended; before it stands what it was told, and nothing else.
   */
  method Reader(events: Channel, answers: seq<Input>) returns (over: bool, ghost used: nat, ghost outcome: Outcome)
    requires events.log == []
    modifies events
    ensures used <= |answers| && OutcomeFits(answers, used, outcome) && (over <==> !outcome.Waiting?)
    ensures if over then Finished(events.log) else Observation(events.log)
    ensures AmountsGrouped(events.log)
    ensures if over then events.log[|events.log| - 1] == VerdictOf(outcome)
                         && Transcribed(events.log[..|events.log| - 1], answers, used)
            else Transcribed(events.log, answers, |answers|)
    ensures over && events.log != [] && events.log[|events.log| - 1] == Ended(None) ==> Cancelled in answers
  {
    hide Transcribed, Observation, PhaseAfter, Grouped;
    var verdict := new Verdict(events);
    var ended, n := RunMempool(events, answers);
    outcome, used := ended, n;
    ghost var before := events.log;
    assert Transcribed(before, answers, used) ==> used <= |answers| by { UsedFits(before, answers, used); }
    match ended {
      case Waiting => return false, used, outcome;
      case Returned(error) => verdict.Send(Ended(error));
      case Unwound => verdict.Drop();
    }
    assert events.log[..|events.log| - 1] == before;
    return true, used, outcome;
  }

  lemma UsedFits(log: seq<Event>, answers: seq<Input>, used: nat)
    ensures Transcribed(log, answers, used) ==> used <= |answers|
  {
  }
}
