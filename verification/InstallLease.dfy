/** The install dispatch lease, internal/repository/plugin/install_attempt.go: one row,
    any number of workers, conditional updates. */
module InstallLease {
  import opened Options

  datatype State = Prepared | Unknown | Dispatching | Failed | Succeeded | Expired

  datatype Attempt = Attempt(
    frozen: bool,
    fingerprint: string,
    agentId: string,
    teamId: string,
    completed: bool,
    state: State,
    hadUnknown: bool,
    leaseToken: Option<string>,
    leaseUntil: Option<int>,
    retryUntil: Option<int>)

  /** One statement issued by some worker. Times come from the caller's clock, except
      in `Expire`, where it is the clock of the database. */
  datatype Action =
    | Claim(frozen: bool, fingerprint: string)
    | Acquire(fingerprint: string, token: string, now: int, lease: int, retry: int)
    | SetUnknown(token: string)
    | Finish(fingerprint: string, token: string, agentId: string, teamId: string)
    | Fail(token: string)
    | Expire(now: int)

  // ------------------------------------------------------------- statements

  /** internal/repository/plugin/install_attempt.go:39-45 and 67-72. */
  function Claimed(row: Option<Attempt>, frozen: bool, fingerprint: string): Attempt {
    match row
    case Some(a) => a
    case None => Attempt(frozen, fingerprint, "", "", false, if frozen then Prepared else Unknown, !frozen, None, None, None)
  }

  /** The WHERE clause of `AcquireInstallDispatch`. */
  predicate CanAcquire(a: Attempt, fingerprint: string, now: int) {
    && a.frozen && a.fingerprint == fingerprint
    && a.state in {Prepared, Unknown, Dispatching, Failed}
    && (a.leaseUntil.None? || a.leaseUntil.value <= now)
    && (a.retryUntil.None? || a.retryUntil.value > now)
  }

  /** Its SET list, evaluated left to right: the latch reads the state before it changes. */
  function Acquired(a: Attempt, token: string, now: int, lease: int, retry: int): Attempt {
    a.(hadUnknown := if a.state == Dispatching then true else a.hadUnknown,
       state := Dispatching,
       leaseToken := Some(token),
       leaseUntil := Some(now + lease),
       retryUntil := if a.retryUntil.Some? then a.retryUntil else Some(now + retry))
  }

  predicate Holds(a: Attempt, token: string) {
    a.leaseToken == Some(token) && a.state == Dispatching
  }

  function Released(a: Attempt, state: State): Attempt {
    a.(state := state, leaseToken := None, leaseUntil := None)
  }

  /** Whether the statement matches the row. */
  predicate Matches(row: Option<Attempt>, action: Action) {
    match action
    case Claim(_, _) => row.None?
    case Acquire(fingerprint, _, now, _, _) => row.Some? && CanAcquire(row.value, fingerprint, now)
    case SetUnknown(token) => row.Some? && Holds(row.value, token)
    case Finish(fingerprint, token, _, _) => row.Some? && Holds(row.value, token) && row.value.fingerprint == fingerprint
    case Fail(token) => row.Some? && Holds(row.value, token) && !row.value.hadUnknown
    case Expire(now) => row.Some? && row.value.state != Succeeded && row.value.retryUntil.Some? && row.value.retryUntil.value <= now
  }

  /** The row after the statement. */
  function Updated(row: Option<Attempt>, action: Action): Option<Attempt> {
    if !Matches(row, action) then row
    else
      match action
      case Claim(frozen, fingerprint) => Some(Claimed(row, frozen, fingerprint))
      case Acquire(_, token, now, lease, retry) => Some(Acquired(row.value, token, now, lease, retry))
      case SetUnknown(_) => Some(Released(row.value, Unknown).(hadUnknown := true))
      case Finish(_, _, agentId, teamId) => Some(Released(row.value, Succeeded).(completed := true, agentId := agentId, teamId := teamId))
      case Fail(_) => Some(Released(row.value, Failed))
      case Expire(_) => Some(Released(row.value, Expired))
  }

  /** The row as the repository keeps it, with its methods. */
  class Repo {
    var row: Option<Attempt>

    constructor ()
      ensures row == None
    {
      row := None;
    }

    method ClaimInstallAttempt(frozen: bool, fingerprint: string) returns (winner: Attempt)
      modifies this
      ensures row == Updated(old(row), Claim(frozen, fingerprint)) && row == Some(winner)
    {
      if row.None? {
        row := Some(Attempt(frozen, fingerprint, "", "", false, if frozen then Prepared else Unknown, !frozen, None, None, None));
      }
      winner := row.value;
    }

    method AcquireInstallDispatch(fingerprint: string, token: string, now: int, lease: int, retry: int) returns (ok: bool)
      modifies this
      ensures row == Updated(old(row), Acquire(fingerprint, token, now, lease, retry))
      ensures ok == Matches(old(row), Acquire(fingerprint, token, now, lease, retry))
    {
      ok := false;
      if row.Some? && row.value.frozen && row.value.fingerprint == fingerprint
         && row.value.state in {Prepared, Unknown, Dispatching, Failed}
         && (row.value.leaseUntil.None? || row.value.leaseUntil.value <= now)
         && (row.value.retryUntil.None? || row.value.retryUntil.value > now)
      {
        row := Some(row.value.(hadUnknown := row.value.state == Dispatching || row.value.hadUnknown));
        row := Some(row.value.(state := Dispatching, leaseToken := Some(token), leaseUntil := Some(now + lease)));
        if row.value.retryUntil.None? {
          row := Some(row.value.(retryUntil := Some(now + retry)));
        }
        ok := true;
      }
    }

    method SetInstallDispatchUnknown(token: string)
      modifies this
      ensures row == Updated(old(row), SetUnknown(token))
    {
      if row.Some? && row.value.leaseToken == Some(token) && row.value.state == Dispatching {
        row := Some(row.value.(state := Unknown, hadUnknown := true, leaseToken := None, leaseUntil := None));
      }
    }

    method FinishInstallDispatch(fingerprint: string, token: string, agentId: string, teamId: string) returns (ok: bool)
      modifies this
      ensures row == Updated(old(row), Finish(fingerprint, token, agentId, teamId))
      ensures ok == Matches(old(row), Finish(fingerprint, token, agentId, teamId))
    {
      ok := row.Some? && row.value.leaseToken == Some(token) && row.value.state == Dispatching && row.value.fingerprint == fingerprint;
      if ok {
        row := Some(row.value.(completed := true, state := Succeeded, agentId := agentId, teamId := teamId,
                               leaseToken := None, leaseUntil := None));
      }
    }

    method ExpireInstallAttempt(now: int)
      modifies this
      ensures row == Updated(old(row), Expire(now))
    {
      if row.Some? && row.value.state != Succeeded && row.value.retryUntil.Some? && row.value.retryUntil.value <= now {
        row := Some(row.value.(state := Expired, leaseToken := None, leaseUntil := None));
      }
    }

    method FailInstallDispatch(token: string) returns (ok: bool)
      modifies this
      ensures row == Updated(old(row), Fail(token))
      ensures ok == Matches(old(row), Fail(token))
    {
      ok := row.Some? && row.value.leaseToken == Some(token) && row.value.state == Dispatching && !row.value.hadUnknown;
      if ok {
        row := Some(row.value.(state := Failed, leaseToken := None, leaseUntil := None));
      }
    }
  }

  // ----------------------------------------------------------------- history

  /** What became of a send. `Open` is the send of the current lease. Everything but
      `Rejected` and `Confirmed` leaves its outcome open for ever. */
  datatype Outcome = Open | Rejected | Confirmed | ReportedUnknown | Superseded | Abandoned

  /** Each lease permits one send, from the moment it is acquired. */
  datatype Send = Send(token: string, at: int, until: int, outcome: Outcome)

  datatype System = System(row: Option<Attempt>, sends: seq<Send>)

  const START := System(None, [])

  /** The current send, if there is one, gets its outcome. */
  function Settle(sends: seq<Send>, outcome: Outcome): seq<Send> {
    if sends != [] && sends[|sends| - 1].outcome == Open
    then sends[..|sends| - 1] + [sends[|sends| - 1].(outcome := outcome)]
    else sends
  }

  function SendsAfter(s: System, action: Action): seq<Send> {
    if !Matches(s.row, action) then s.sends
    else
      match action
      case Claim(_, _) => s.sends
      case Acquire(_, token, now, lease, _) => Settle(s.sends, Superseded) + [Send(token, now, now + lease, Open)]
      case SetUnknown(_) => Settle(s.sends, ReportedUnknown)
      case Finish(_, _, _, _) => Settle(s.sends, Confirmed)
      case Fail(_) => Settle(s.sends, Rejected)
      case Expire(_) => Settle(s.sends, Abandoned)
  }

  function Step(s: System, action: Action): System {
    System(Updated(s.row, action), SendsAfter(s, action))
  }

  function Run(s: System, actions: seq<Action>): System
    decreases |actions|
  {
    if actions == [] then s else Run(Step(s, actions[0]), actions[1..])
  }

  /** Workers draw a new token for every lease they ask for. */
  ghost predicate FreshTokens(s: System, actions: seq<Action>)
    decreases |actions|
  {
    actions == [] ||
    (&& (actions[0].Acquire? ==> forall i :: 0 <= i < |s.sends| ==> s.sends[i].token != actions[0].token)
     && FreshTokens(Step(s, actions[0]), actions[1..]))
  }

  // --------------------------------------------------------------- invariant

  predicate Uncertain(o: Outcome) {
    o == ReportedUnknown || o == Superseded
  }

  /** Only the last send can be open, confirmed or abandoned, and the state says which. */
  ghost predicate HistoryShape(state: State, sends: seq<Send>) {
    && (forall i :: 0 <= i < |sends| - 1 ==> sends[i].outcome == Rejected || Uncertain(sends[i].outcome))
    && (sends != [] ==>
          var last := sends[|sends| - 1].outcome;
          && (last == Open <==> state == Dispatching)
          && (last == Confirmed <==> state == Succeeded)
          && (last == Abandoned ==> state == Expired)
          && last != Superseded)
    && (sends == [] ==> state == Prepared || state == Unknown)
  }

  /** The latch is set exactly when some send's outcome is open for ever. */
  ghost predicate Latched(a: Attempt, sends: seq<Send>) {
    && (a.hadUnknown <==> !a.frozen || exists i :: 0 <= i < |sends| && Uncertain(sends[i].outcome))
    && (a.state == Failed ==> !a.hadUnknown)
    && (!a.frozen ==> sends == [])
  }

  /** A lease that was taken over had run out; all but the first began inside the window. */
  ghost predicate Timed(a: Attempt, sends: seq<Send>) {
    && (a.retryUntil.Some? <==> sends != [])
    && (forall i, j :: 0 <= i && j == i + 1 < |sends| && sends[i].outcome == Superseded ==> sends[i].until <= sends[j].at)
    && (forall i :: 0 < i < |sends| ==> sends[i].at < a.retryUntil.value)
  }

  ghost predicate DistinctTokens(sends: seq<Send>) {
    forall i, j :: 0 <= i < j < |sends| ==> sends[i].token != sends[j].token
  }

  /** The lease in the row, if any, is that of the last send. */
  ghost predicate Leased(a: Attempt, sends: seq<Send>) {
    && (a.leaseToken.Some? <==> a.state == Dispatching)
    && (a.leaseUntil.Some? <==> a.state == Dispatching)
    && (a.state == Dispatching ==>
          && sends != []
          && a.leaseToken == Some(sends[|sends| - 1].token)
          && a.leaseUntil == Some(sends[|sends| - 1].until))
  }

  ghost predicate Inv(s: System) {
    match s.row
    case None => s.sends == []
    case Some(a) =>
      && HistoryShape(a.state, s.sends)
      && Leased(a, s.sends)
      && Latched(a, s.sends)
      && Timed(a, s.sends)
      && DistinctTokens(s.sends)
  }

  /** The token of an acquire was never used for a lease before. */
  ghost predicate Fresh(s: System, action: Action) {
    action.Acquire? ==> forall i :: 0 <= i < |s.sends| ==> s.sends[i].token != action.token
  }

  lemma SettleShape(sends: seq<Send>, outcome: Outcome)
    ensures var r := Settle(sends, outcome);
            && |r| == |sends|
            && (forall i :: 0 <= i < |sends| ==> r[i].token == sends[i].token && r[i].at == sends[i].at && r[i].until == sends[i].until)
            && (forall i :: 0 <= i < |sends| - 1 ==> r[i] == sends[i])
            && (sends != [] ==> r[|r| - 1].outcome == if sends[|sends| - 1].outcome == Open then outcome else sends[|sends| - 1].outcome)
  {
  }

  lemma UncertainAfterSettle(sends: seq<Send>, outcome: Outcome)
    requires sends != [] && sends[|sends| - 1].outcome == Open
    ensures (exists i :: 0 <= i < |sends| && Uncertain(Settle(sends, outcome)[i].outcome))
       <==> Uncertain(outcome) || exists i :: 0 <= i < |sends| && Uncertain(sends[i].outcome)
  {
    var r := Settle(sends, outcome);
    SettleShape(sends, outcome);
    if Uncertain(outcome) {
      assert Uncertain(r[|r| - 1].outcome);
    }
    if i :| 0 <= i < |sends| && Uncertain(sends[i].outcome) {
      assert Uncertain(r[i].outcome);
    }
    if i :| 0 <= i < |sends| && Uncertain(r[i].outcome) {
      assert Uncertain(outcome) || Uncertain(sends[i].outcome);
    }
  }

  /** A release (unknown, finished, failed, expired while sending) keeps the invariant. */
  lemma ReleaseKeepsInv(s: System, action: Action)
    requires Inv(s) && Matches(s.row, action) && s.row.Some?
    requires action.SetUnknown? || action.Finish? || action.Fail? || (action.Expire? && s.row.value.state == Dispatching)
    ensures Inv(Step(s, action))
  {
    var outcome := if action.SetUnknown? then ReportedUnknown else if action.Finish? then Confirmed else if action.Fail? then Rejected else Abandoned;
    SettleShape(s.sends, outcome);
    UncertainAfterSettle(s.sends, outcome);
  }

  lemma AcquireKeepsShape(s: System, action: Action)
    requires Inv(s) && Matches(s.row, action) && action.Acquire? && Fresh(s, action)
    ensures var t := Step(s, action);
            && t.row.Some?
            && HistoryShape(t.row.value.state, t.sends) && Leased(t.row.value, t.sends) && DistinctTokens(t.sends)
  {
    hide Latched, Timed;
    SettleShape(s.sends, Superseded);
  }

  lemma AcquireKeepsTimes(s: System, action: Action)
    requires Inv(s) && Matches(s.row, action) && action.Acquire?
    ensures Timed(Step(s, action).row.value, Step(s, action).sends)
  {
    hide Latched, DistinctTokens;
    SettleShape(s.sends, Superseded);
  }

  lemma AcquireKeepsLatch(s: System, action: Action)
    requires Inv(s) && Matches(s.row, action) && action.Acquire?
    ensures Latched(Step(s, action).row.value, Step(s, action).sends)
  {
    hide DistinctTokens, Timed;
    var settled := Settle(s.sends, Superseded);
    var after := Step(s, action);
    SettleShape(s.sends, Superseded);
    assert after.sends == settled + [Send(action.token, action.now, action.now + action.lease, Open)];
    if s.row.value.state == Dispatching {
      assert Uncertain(after.sends[|s.sends| - 1].outcome);
    } else {
      assert settled == s.sends;
      if i :| 0 <= i < |s.sends| && Uncertain(s.sends[i].outcome) {
        assert Uncertain(after.sends[i].outcome);
      }
    }
  }

  lemma StepKeepsInv(s: System, action: Action)
    requires Inv(s) && Fresh(s, action)
    ensures Inv(Step(s, action))
  {
    if !Matches(s.row, action) {
      assert Step(s, action) == s;
    } else if action.Acquire? {
      AcquireKeepsShape(s, action);
      AcquireKeepsTimes(s, action);
      AcquireKeepsLatch(s, action);
    } else if action.Claim? {
    } else if action.Expire? && s.row.value.state != Dispatching {
      assert Step(s, action).sends == s.sends;
    } else {
      ReleaseKeepsInv(s, action);
    }
  }

  /** Every state that any interleaving of workers reaches satisfies the invariant. */
  lemma {:induction false} RunKeepsInv(s: System, actions: seq<Action>)
    requires Inv(s) && FreshTokens(s, actions)
    ensures Inv(Run(s, actions))
    decreases |actions|
  {
    if actions != [] {
      StepKeepsInv(s, actions[0]);
      RunKeepsInv(Step(s, actions[0]), actions[1..]);
    }
  }

  // ------------------------------------------------------------ over all runs

  /** A worker whose report is accepted reports on its own send, the last one. */
  lemma ReportsOnOwnSend(actions: seq<Action>, action: Action, token: string)
    requires FreshTokens(START, actions)
    requires action == SetUnknown(token) || action == Fail(token) || (action.Finish? && action.token == token)
    requires var s := Run(START, actions); Matches(s.row, action)
    ensures var s := Run(START, actions);
            && s.sends != []
            && s.sends[|s.sends| - 1].token == token
            && s.sends[|s.sends| - 1].outcome == Open
            && (forall i :: 0 <= i < |s.sends| - 1 ==> s.sends[i].token != token)
  {
    RunKeepsInv(START, actions);
  }

  /** FAILED never hides a send that may have been carried out: each was rejected. */
  lemma FailedMeansEverySendRejected(actions: seq<Action>)
    requires FreshTokens(START, actions)
    ensures var s := Run(START, actions);
            s.row.Some? && s.row.value.state == Failed ==>
              s.sends != [] && forall i :: 0 <= i < |s.sends| ==> s.sends[i].outcome == Rejected
  {
    RunKeepsInv(START, actions);
  }

  /** When a definite rejection is recorded: exactly when the worker still holds the
      lease and every send before its own was rejected. */
  lemma FailMatchesExactly(actions: seq<Action>, token: string)
    requires FreshTokens(START, actions)
    ensures var s := Run(START, actions);
            Matches(s.row, Fail(token)) <==>
              && s.sends != []
              && s.sends[|s.sends| - 1].token == token
              && s.sends[|s.sends| - 1].outcome == Open
              && forall i :: 0 <= i < |s.sends| - 1 ==> s.sends[i].outcome == Rejected
  {
    RunKeepsInv(START, actions);
    var s := Run(START, actions);
    if s.sends != [] && s.row.value.hadUnknown {
      var i :| 0 <= i < |s.sends| && Uncertain(s.sends[i].outcome);
      assert s.sends[i].outcome != Rejected;
    }
  }

  /** The latch records exactly the uncertain sends (a claim without a plan is born with it). */
  lemma LatchIsExact(actions: seq<Action>)
    requires FreshTokens(START, actions)
    ensures var s := Run(START, actions);
            s.row.Some? ==>
              (s.row.value.hadUnknown <==> !s.row.value.frozen || exists i :: 0 <= i < |s.sends| && Uncertain(s.sends[i].outcome))
  {
    RunKeepsInv(START, actions);
  }

  /** Once set, the latch stays set, and FAILED is out of reach, whatever comes next. */
  lemma {:induction false} LatchIsForEver(s: System, actions: seq<Action>)
    requires Inv(s) && FreshTokens(s, actions)
    requires s.row.Some? && s.row.value.hadUnknown
    ensures var t := Run(s, actions); t.row.Some? && t.row.value.hadUnknown && t.row.value.state != Failed
    decreases |actions|
  {
    if actions != [] {
      StepKeepsInv(s, actions[0]);
      LatchIsForEver(Step(s, actions[0]), actions[1..]);
    }
  }

  /** An outcome once known or given up never changes: the history only grows. */
  lemma {:induction false} OutcomesAreFinal(s: System, actions: seq<Action>, i: nat)
    requires i < |s.sends| && s.sends[i].outcome != Open
    ensures i < |Run(s, actions).sends| && Run(s, actions).sends[i] == s.sends[i]
    decreases |actions|
  {
    if actions != [] {
      OutcomesAreFinal(Step(s, actions[0]), actions[1..], i);
    }
  }

  /** SUCCEEDED and EXPIRED absorb: the whole row, ids included, is frozen. */
  lemma {:induction false} TerminalRowIsFrozen(s: System, actions: seq<Action>)
    requires Inv(s) && FreshTokens(s, actions)
    requires s.row.Some? && s.row.value.state in {Succeeded, Expired}
    ensures Run(s, actions) == s
    decreases |actions|
  {
    if actions != [] {
      SettleShape(s.sends, Abandoned);
      assert Step(s, actions[0]) == s;
      TerminalRowIsFrozen(s, actions[1..]);
    }
  }

  /** The `Finish` statements of a run that return true. */
  function Finishes(s: System, actions: seq<Action>): nat
    decreases |actions|
  {
    if actions == [] then 0
    else (if actions[0].Finish? && Matches(s.row, actions[0]) then 1 else 0) + Finishes(Step(s, actions[0]), actions[1..])
  }

  lemma {:induction false} FinishesFrom(s: System, actions: seq<Action>)
    requires Inv(s) && FreshTokens(s, actions)
    ensures Finishes(s, actions)
         == (if Won(Run(s, actions)) then 1 else 0) - (if Won(s) then 1 else 0)
    decreases |actions|
  {
    if actions != [] {
      StepKeepsInv(s, actions[0]);
      FinishesFrom(Step(s, actions[0]), actions[1..]);
    }
  }

  predicate Won(s: System) {
    s.row.Some? && s.row.value.state == Succeeded
  }

  /** At most one finish is counted, and one is counted exactly when the run succeeded;
      the row then holds the ids that finish reported for the one confirmed send. */
  lemma FinishCountsOnce(actions: seq<Action>)
    requires FreshTokens(START, actions)
    ensures Finishes(START, actions) == if Won(Run(START, actions)) then 1 else 0
  {
    FinishesFrom(START, actions);
  }

  /** The ids in a succeeded row are those of the finish that won, whatever ran before and after. */
  lemma WinnerKeepsItsIds(before: seq<Action>, finish: Action, later: seq<Action>)
    requires finish.Finish? && Matches(Run(START, before).row, finish)
    requires FreshTokens(START, before) && FreshTokens(Step(Run(START, before), finish), later)
    ensures var t := Run(Step(Run(START, before), finish), later);
            && Won(t) && t.row.value.completed
            && t.row.value.agentId == finish.agentId && t.row.value.teamId == finish.teamId
  {
    RunKeepsInv(START, before);
    var s := Step(Run(START, before), finish);
    StepKeepsInv(Run(START, before), finish);
    TerminalRowIsFrozen(s, later);
  }

  /** A lease, token and deadline, is held exactly while dispatching, and it is the lease of the last send. */
  lemma LeaseExactlyWhileDispatching(actions: seq<Action>)
    requires FreshTokens(START, actions)
    ensures var s := Run(START, actions);
            s.row.Some? ==>
              && (s.row.value.leaseToken.Some? <==> s.row.value.state == Dispatching)
              && (s.row.value.leaseUntil.Some? <==> s.row.value.state == Dispatching)
              && (s.row.value.state == Dispatching ==>
                    && s.sends != []
                    && s.row.value.leaseToken == Some(s.sends[|s.sends| - 1].token)
                    && s.row.value.leaseUntil == Some(s.sends[|s.sends| - 1].until))
  {
    RunKeepsInv(START, actions);
  }

  /** A worker that lost its lease changes nothing, ever after. */
  lemma SupersededTokenIsPowerless(actions: seq<Action>, later: seq<Action>, action: Action, token: string, i: nat)
    requires FreshTokens(START, actions) && FreshTokens(Run(START, actions), later)
    requires var s := Run(START, actions); i < |s.sends| && s.sends[i].token == token && s.sends[i].outcome != Open
    requires action == SetUnknown(token) || action == Fail(token) || (action.Finish? && action.token == token)
    ensures var t := Run(Run(START, actions), later); Step(t, action) == t
  {
    hide Run, FreshTokens, Inv;
    RunKeepsInv(START, actions);
    var s := Run(START, actions);
    RunKeepsInv(s, later);
    OutcomesAreFinal(s, later, i);
    SettledHoldsNothing(Run(s, later), action, token, i);
  }

  lemma SettledHoldsNothing(t: System, action: Action, token: string, i: nat)
    requires Inv(t) && i < |t.sends| && t.sends[i].token == token && t.sends[i].outcome != Open
    requires action == SetUnknown(token) || action == Fail(token) || (action.Finish? && action.token == token)
    ensures Step(t, action) == t
  {
    hide Latched, Timed;
  }

  /** The clock readings of the acquires that succeed never go back. */
  ghost predicate MonotoneClock(s: System) {
    forall i, j :: 0 <= i < j < |s.sends| ==> s.sends[i].at <= s.sends[j].at
  }

  /** A lease taken over had run out before the next began; so under a clock that never
      goes back no two leases run at the same moment unless the earlier was given back. */
  lemma LeasesDoNotOverlap(actions: seq<Action>, i: nat, j: nat, moment: int)
    requires FreshTokens(START, actions)
    requires MonotoneClock(Run(START, actions))
    requires var s := Run(START, actions); i < j < |s.sends| && s.sends[i].outcome !in {Rejected, ReportedUnknown}
    ensures var s := Run(START, actions);
            !(s.sends[i].at <= moment < s.sends[i].until && s.sends[j].at <= moment < s.sends[j].until)
  {
    RunKeepsInv(START, actions);
    var s := Run(START, actions);
    assert s.sends[i].outcome == Superseded;
    assert s.sends[i].until <= s.sends[i + 1].at;
    assert s.sends[i + 1].at <= s.sends[j].at;
  }

  /** Once fixed, the retry window never moves. */
  lemma {:induction false} RetryWindowIsFixed(s: System, actions: seq<Action>)
    requires s.row.Some? && s.row.value.retryUntil.Some?
    ensures var t := Run(s, actions); t.row.Some? && t.row.value.retryUntil == s.row.value.retryUntil
    decreases |actions|
  {
    if actions != [] {
      RetryWindowIsFixed(Step(s, actions[0]), actions[1..]);
    }
  }

  /** The first acquire fixes the window and every later one falls inside it. */
  lemma AcquiresFallInTheWindow(actions: seq<Action>, i: nat)
    requires FreshTokens(START, actions)
    requires 0 < i < |Run(START, actions).sends|
    ensures var s := Run(START, actions);
            s.row.Some? && s.row.value.retryUntil.Some? && s.sends[i].at < s.row.value.retryUntil.value
  {
    RunKeepsInv(START, actions);
  }

  /** The window is the first acquire's clock reading plus its retry span. */
  lemma FirstAcquireSetsTheWindow(before: seq<Action>, acquire: Action, later: seq<Action>)
    requires FreshTokens(START, before) && acquire.Acquire?
    requires var s := Run(START, before); s.sends == [] && Matches(s.row, acquire)
    ensures var t := Run(Step(Run(START, before), acquire), later);
            t.row.Some? && t.row.value.retryUntil == Some(acquire.now + acquire.retry)
  {
    RunKeepsInv(START, before);
    RetryWindowIsFixed(Step(Run(START, before), acquire), later);
  }
}
