/**
 Allocating the next index of a scope while others insert into the same table:
 the SELECT and the INSERT are separate steps, and the UNIQUE constraint decides.
 */
module Allocator {
  import opened Wrappers
  import opened Tables

  const ATTEMPTS: nat := 8

  /** The indices of one account and scope, with who stored each: a caller, or None for anyone else. */
  type Rows = map<nat, Option<nat>>

  /** Where a call stands: `tried` are the indices it lost, `began` the indices stored when it started. */
  datatype Call =
    | Ready(tried: seq<nat>, began: set<nat>)
    | Picked(dindex: nat, tried: seq<nat>, began: set<nat>)
    | Done(dindex: nat, tried: seq<nat>, began: set<nat>)
    | GaveUp(tried: seq<nat>, began: set<nat>)

  datatype State = State(rows: Rows, calls: map<nat, Call>)

  datatype Step = Begin(caller: nat) | Pick(caller: nat) | Insert(caller: nat) | Outside(dindex: nat)

  ghost predicate Next(s: State, step: Step, s': State) {
    match step
    case Begin(c) => c !in s.calls && s' == s.(calls := s.calls[c := Ready([], s.rows.Keys)])
    case Pick(c) =>
      && c in s.calls && s.calls[c].Ready?
      && s' == s.(calls := s.calls[c := Picked(NextAbove(s.rows.Keys), s.calls[c].tried, s.calls[c].began)])
    case Insert(c) =>
      c in s.calls && s.calls[c].Picked? && s' == Inserted(s, c, s.calls[c])
    case Outside(d) => d !in s.rows && s' == s.(rows := s.rows[d := None])
  }

  /** ON CONFLICT DO NOTHING: the loser goes round again, or gives up after the last attempt. */
  function Inserted(s: State, c: nat, call: Call): State
    requires call.Picked?
  {
    var tried := call.tried + [call.dindex];
    if call.dindex !in s.rows
      then State(s.rows[call.dindex := Some(c)], s.calls[c := Done(call.dindex, call.tried, call.began)])
    else if |tried| < ATTEMPTS then s.(calls := s.calls[c := Ready(tried, call.began)])
    else s.(calls := s.calls[c := GaveUp(tried, call.began)])
  }

  ghost predicate Run(states: seq<State>, steps: seq<Step>) {
    && |states| == |steps| + 1 && states[0].calls == map[]
    && (forall d | d in states[0].rows :: states[0].rows[d] == None)
    && forall i | 0 <= i < |steps| :: Next(states[i], steps[i], states[i + 1])
  }

  predicate Increasing(s: seq<nat>) { forall i, j | 0 <= i < j < |s| :: s[i] < s[j] }

  /** Every index the call lost belongs to somebody else, who stored it after the call began. */
  predicate LostToOthers(rows: Rows, c: nat, tried: seq<nat>, began: set<nat>) {
    Increasing(tried) && forall i | 0 <= i < |tried| ::
      tried[i] in rows && rows[tried[i]] != Some(c) && tried[i] !in began
  }

  predicate CallOk(rows: Rows, c: nat, call: Call) {
    && call.began <= rows.Keys && LostToOthers(rows, c, call.tried, call.began)
    && (call.Done? <==> exists d :: d in rows && rows[d] == Some(c))
    && match call
       case Ready(tried, _) => |tried| < ATTEMPTS
       case Picked(d, tried, began) => |tried| < ATTEMPTS && d !in began && forall i | 0 <= i < |tried| :: tried[i] < d
       case Done(d, tried, began) => d in rows && rows[d] == Some(c) && d !in began && forall i | 0 <= i < |tried| ::
         tried[i] < d
       case GaveUp(tried, _) => |tried| == ATTEMPTS
  }

  ghost predicate Sound(s: State) {
    && (forall c | c in s.calls :: CallOk(s.rows, c, s.calls[c]))
    && (forall d | d in s.rows && s.rows[d].Some? :: s.rows[d].value in s.calls)
  }

  lemma OthersUnmoved(s: State, c: nat, d: nat, owner: Option<nat>)
    requires Sound(s) && c in s.calls && d !in s.rows && owner != Some(c)
    ensures CallOk(s.rows[d := owner], c, s.calls[c])
  {
    var rows := s.rows[d := owner];
    assert CallOk(s.rows, c, s.calls[c]);
    if s.calls[c].Done? {
      assert rows[s.calls[c].dindex] == Some(c);
    }
  }

  lemma PickOk(rows: Rows, c: nat, call: Call)
    requires CallOk(rows, c, call) && call.Ready?
    ensures CallOk(rows, c, Picked(NextAbove(rows.Keys), call.tried, call.began))
  {
  }

  lemma StoredOk(rows: Rows, c: nat, call: Call)
    requires CallOk(rows, c, call) && call.Picked? && call.dindex !in rows
    ensures CallOk(rows[call.dindex := Some(c)], c, Done(call.dindex, call.tried, call.began))
  {
    var rows' := rows[call.dindex := Some(c)];
    assert call.dindex in rows' && rows'[call.dindex] == Some(c);
  }

  lemma LostOk(rows: Rows, c: nat, call: Call)
    requires CallOk(rows, c, call) && call.Picked? && call.dindex in rows
    ensures LostToOthers(rows, c, call.tried + [call.dindex], call.began)
  {
  }

  lemma InsertOk(s: State, c: nat)
    requires Sound(s) && c in s.calls && s.calls[c].Picked?
    ensures Sound(Inserted(s, c, s.calls[c]))
  {
    var call, s' := s.calls[c], Inserted(s, c, s.calls[c]);
    assert CallOk(s.rows, c, call);
    if call.dindex !in s.rows {
      StoredOk(s.rows, c, call);
      forall o | o in s'.calls && o != c
        ensures CallOk(s'.rows, o, s'.calls[o])
      {
        OthersUnmoved(s, o, call.dindex, Some(c));
      }
    } else {
      LostOk(s.rows, c, call);
    }
  }

  lemma StepOk(s: State, step: Step, s': State)
    requires Sound(s) && Next(s, step, s')
    ensures Sound(s')
  {
    match step
    case Begin(c) =>
      assert forall d | d in s.rows && s.rows[d].Some? :: s.rows[d].value != c;
    case Pick(c) => PickOk(s.rows, c, s.calls[c]);
    case Insert(c) => InsertOk(s, c);
    case Outside(d) =>
      forall o | o in s'.calls
        ensures CallOk(s'.rows, o, s'.calls[o])
      {
        OthersUnmoved(s, o, d, None);
      }
  }

  lemma {:induction false} RunOk(states: seq<State>, steps: seq<Step>)
    requires Run(states, steps)
    ensures Sound(states[|steps|])
  {
    if steps != [] {
      var n := |steps| - 1;
      RunOk(states[..n + 1], steps[..n]);
      StepOk(states[n], steps[n], states[n + 1]);
    }
  }

  /** In every interleaving, two calls that succeed got different indices. */
  lemma SuccessesAreDistinct(states: seq<State>, steps: seq<Step>, a: nat, b: nat)
    requires Run(states, steps) && a != b
    ensures var s := states[|steps|];
            a in s.calls && b in s.calls && s.calls[a].Done? && s.calls[b].Done? ==>
              s.calls[a].dindex != s.calls[b].dindex
  {
    RunOk(states, steps);
  }

  /** Each retry goes strictly higher, and a call that gives up lost eight indices that others stored since it began. */
  lemma GivingUpMeansEightOthers(states: seq<State>, steps: seq<Step>, c: nat)
    requires Run(states, steps)
    ensures var s := states[|steps|];
            c in s.calls ==> LostToOthers(s.rows, c, s.calls[c].tried, s.calls[c].began)
                             && (s.calls[c].GaveUp? ==> |s.calls[c].tried| == 8)
                             && (s.calls[c].Done? ==>
                                  forall i | 0 <= i < |s.calls[c].tried| :: s.calls[c].tried[i] < s.calls[c].dindex)
  {
    RunOk(states, steps);
    var s := states[|steps|];
    if c in s.calls {
      assert CallOk(s.rows, c, s.calls[c]);
    }
  }

  /** `d` is directly above everything in `stored`, 0 when nothing is stored. */
  ghost predicate DirectlyAbove(d: nat, stored: set<nat>) {
    (forall x | x in stored :: x < d) && (d > 0 ==> d - 1 in stored)
  }

  /** Every pick is directly above all that is stored at that moment, and an undisturbed INSERT stores it. */
  lemma PickIsNext(s: State, c: nat, s': State)
    requires Next(s, Pick(c), s')
    ensures c in s'.calls && s'.calls[c].Picked? && DirectlyAbove(s'.calls[c].dindex, s'.rows.Keys)
    ensures forall t | Next(s', Insert(c), t) ::
              && c in t.calls && t.calls[c].Done? && t.calls[c].dindex == s'.calls[c].dindex
              && t.rows == s.rows[s'.calls[c].dindex := Some(c)]
  {
  }

  ghost predicate ByOthers(others: seq<set<nat>>, d: nat) { exists k :: 0 <= k < |others| && d in others[k] }

  /**
   What is stored when the call makes its `n`-th attempt, counted from 0: the others have come in
   before each INSERT.
   */
  function StoredBefore(rows: set<nat>, others: seq<set<nat>>, n: nat): set<nat>
    requires n <= |others|
  {
    if n == 0 then rows else StoredBefore(rows, others, n - 1) + others[n - 1]
  }

  /** The `n`-th attempt picks the lowest index above everything stored. */
  ghost predicate Picks(rows: set<nat>, others: seq<set<nat>>, n: nat, d: nat) {
    n <= |others| && DirectlyAbove(d, StoredBefore(rows, others, n))
  }

  /** And loses it when the others store it before its INSERT. */
  ghost predicate Loses(rows: set<nat>, others: seq<set<nat>>, n: nat, d: nat) {
    n < |others| && Picks(rows, others, n, d) && d in others[n]
  }

  lemma {:induction false} LaterIsHigher(rows: set<nat>, others: seq<set<nat>>, i: nat, d: nat, j: nat, e: nat)
    requires Loses(rows, others, i, d) && i < j && Picks(rows, others, j, e)
    ensures d < e && d !in rows
  {
    StoredGrows(rows, others, 0, i);
    StoredGrows(rows, others, i + 1, j);
  }

  lemma {:induction false} StoredGrows(rows: set<nat>, others: seq<set<nat>>, i: nat, j: nat)
    requires i <= j <= |others|
    ensures StoredBefore(rows, others, i) <= StoredBefore(rows, others, j)
  {
    if i < j {
      StoredGrows(rows, others, i, j - 1);
    }
  }

  /** The attempts of a call: each but a successful last one was lost. */
  ghost predicate AllLost(rows: set<nat>, others: seq<set<nat>>, tried: seq<nat>) {
    forall i | 0 <= i < |tried| :: Loses(rows, others, i, tried[i])
  }

  lemma LostMeans(rows: set<nat>, others: seq<set<nat>>, tried: seq<nat>)
    requires AllLost(rows, others, tried)
    ensures Increasing(tried) && forall i | 0 <= i < |tried| :: tried[i] !in rows && ByOthers(others, tried[i])
    ensures forall d | Picks(rows, others, |tried|, d) :: forall i | 0 <= i < |tried| :: tried[i] < d
  {
    forall i, j, e | 0 <= i < |tried| && i < j && Picks(rows, others, j, e)
      ensures tried[i] < e
    {
      LaterIsHigher(rows, others, i, tried[i], j, e);
    }
    forall i | 0 <= i < |tried|
      ensures tried[i] !in rows && ByOthers(others, tried[i])
    {
      assert Loses(rows, others, i, tried[i]);
      StoredGrows(rows, others, 0, i);
    }
  }

  /**
   The loop of one call; `others` are the indices stored by others before each of its INSERTs. It
   stores the first index it picks that nobody takes before it, and gives up after eight losses.
   */
  method GenerateNext(rows: set<nat>, others: seq<set<nat>>) returns (r: Option<nat>, tried: seq<nat>, rows': set<nat>)
    requires |others| == ATTEMPTS
    ensures AllLost(rows, others, tried)
    ensures r.Some? ==> |tried| < ATTEMPTS && Picks(rows, others, |tried|, r.value) && r.value !in others[|tried|]
                        && rows' == StoredBefore(rows, others, |tried| + 1) + {r.value}
    ensures r.None? ==> |tried| == ATTEMPTS && rows' == StoredBefore(rows, others, ATTEMPTS)
    ensures rows <= rows'
    ensures r.Some? ==> r.value !in rows && r.value in rows' && forall i | 0 <= i < |tried| :: tried[i] < r.value
    ensures Increasing(tried) && forall i | 0 <= i < |tried| :: tried[i] !in rows && ByOthers(others, tried[i])
  {
    hide Increasing, ByOthers;
    tried, rows' := [], rows;
    for attempt := 0 to ATTEMPTS
      invariant |tried| == attempt && rows' == StoredBefore(rows, others, attempt) && AllLost(rows, others, tried)
    {
      var dindex := NextAbove(rows');
      assert Picks(rows, others, attempt, dindex);
      StoredGrows(rows, others, 0, attempt);
      rows' := rows' + others[attempt];
      if dindex !in rows' {
        rows' := rows' + {dindex};
        LostMeans(rows, others, tried);
        return Some(dindex), tried, rows';
      }
      tried := tried + [dindex];
    }
    LostMeans(rows, others, tried);
    StoredGrows(rows, others, 0, ATTEMPTS);
    return None, tried, rows';
  }
}
