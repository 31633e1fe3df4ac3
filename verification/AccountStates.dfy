/**
 The account state machine with its audit trail (services/state_machine.py, db/models/enums.py).
 The transition table is the code's: `snoozed` can be left again, and straight into `contactable`.
 */
module AccountStates {
  import opened Wrappers

  datatype AccountState =
    | RawSignal | CandidateAccount | QualifiedAccount | Contactable | Contacted | Replied | IntakeOpen
    | Uploaded | Fulfilled | OfferSent | Paid | Activated | Snoozed | Suppressed | Blocked

  /** VALID_TRANSITIONS */
  function ValidTransitions(from: AccountState): set<AccountState> {
    match from
    case RawSignal => {CandidateAccount, Blocked}
    case CandidateAccount => {QualifiedAccount, Snoozed, Blocked}
    case QualifiedAccount => {Contactable, Snoozed, Suppressed, Blocked}
    case Contactable => {Contacted, Snoozed, Suppressed, Blocked}
    case Contacted => {Replied, Snoozed, Suppressed, Blocked}
    case Replied => {IntakeOpen, Snoozed, Suppressed, Blocked}
    case IntakeOpen => {Uploaded, Snoozed, Blocked}
    case Uploaded => {Fulfilled, Blocked}
    case Fulfilled => {OfferSent, Blocked}
    case OfferSent => {Paid, Snoozed, Blocked}
    case Paid => {Activated, Blocked}
    case Activated => {}
    case Snoozed => {CandidateAccount, QualifiedAccount, Contactable, Blocked}
    case Suppressed => {}
    case Blocked => {}
  }

  predicate CanTransition(current: AccountState, target: AccountState) {
    target in ValidTransitions(current)
  }

  /** Where each state is entered from: the table, read the other way round. */
  lemma EnteredFrom(s: AccountState)
    ensures !CanTransition(s, RawSignal)
    ensures CanTransition(s, CandidateAccount) <==> s in {RawSignal, Snoozed}
    ensures CanTransition(s, QualifiedAccount) <==> s in {CandidateAccount, Snoozed}
    ensures CanTransition(s, Contactable) <==> s in {QualifiedAccount, Snoozed}
    ensures CanTransition(s, Contacted) <==> s == Contactable
    ensures CanTransition(s, Replied) <==> s == Contacted
    ensures CanTransition(s, IntakeOpen) <==> s == Replied
    ensures CanTransition(s, Uploaded) <==> s == IntakeOpen
    ensures CanTransition(s, Fulfilled) <==> s == Uploaded
    ensures CanTransition(s, OfferSent) <==> s == Fulfilled
    ensures CanTransition(s, Paid) <==> s == OfferSent
    ensures CanTransition(s, Activated) <==> s == Paid
    ensures CanTransition(s, Snoozed) <==>
            s in {CandidateAccount, QualifiedAccount, Contactable, Contacted, Replied, IntakeOpen, OfferSent}
    ensures CanTransition(s, Suppressed) <==> s in {QualifiedAccount, Contactable, Contacted, Replied}
    ensures CanTransition(s, Blocked) <==> s !in {Activated, Suppressed, Blocked}
  {
  }

  // ---- runs of one account -----------------------------------------------------------------------

  ghost predicate IsPath(states: seq<AccountState>) {
    forall i :: 0 < i < |states| ==> CanTransition(states[i - 1], states[i])
  }

  /** The states of a run, the first one included. */
  ghost predicate IsRun(run: seq<AccountState>) {
    run != [] && run[0] == RawSignal && IsPath(run)
  }

  /** How far along the pipeline a state is; only falling asleep goes back. */
  function Progress(s: AccountState): nat {
    match s
    case RawSignal => 0
    case CandidateAccount => 1
    case QualifiedAccount => 2
    case Contactable => 3
    case Contacted => 4
    case Replied => 5
    case IntakeOpen => 6
    case Uploaded => 7
    case Fulfilled => 8
    case OfferSent => 9
    case Paid => 10
    case Activated => 11
    case Snoozed => 0
    case Suppressed => 11
    case Blocked => 11
  }

  /** A step moves along the pipeline, unless the account falls asleep before it has paid. */
  lemma StepsMakeProgress(s: AccountState, t: AccountState)
    requires CanTransition(s, t)
    ensures if t == Snoozed then Progress(s) <= 9 else Progress(t) > Progress(s)
  {
  }

  lemma FunnelHasOneEntrance(s: AccountState, k: nat)
    requires k < |FUNNEL| && CanTransition(s, FUNNEL[k])
    ensures if k == 0 then s in {QualifiedAccount, Snoozed} else s == FUNNEL[k - 1]
  {
  }

  /** Activated, suppressed and blocked accounts stay so; any other account can still be blocked. */
  lemma {:induction false} RunContinuesUnlessFinished(run: seq<AccountState>, i: nat)
    requires IsRun(run) && i < |run|
    ensures i < |run| - 1 ==> run[i] !in {Activated, Suppressed, Blocked}
    ensures IsRun(run[..i + 1] + [Blocked]) <==> run[i] !in {Activated, Suppressed, Blocked}
  {
    EnteredFrom(run[i]);
    var blocked := run[..i + 1] + [Blocked];
    assert blocked[i] == run[i] && blocked[i + 1] == Blocked;
    if i < |run| - 1 {
      assert CanTransition(run[i], run[i + 1]);
    }
  }

  /** An account is suppressed from qualification to its reply, and from no other state. */
  lemma SuppressionComesAfterQualification(run: seq<AccountState>)
    requires IsRun(run) && run[|run| - 1] == Suppressed
    ensures |run| > 1 && run[|run| - 2] in {QualifiedAccount, Contactable, Contacted, Replied}
  {
    EnteredFrom(run[|run| - 2]);
  }

  function Snoozes(run: seq<AccountState>): nat {
    if run == [] then 0 else Snoozes(run[..|run| - 1]) + (if run[|run| - 1] == Snoozed then 1 else 0)
  }

  const FUNNEL: seq<AccountState> :=
    [Contactable, Contacted, Replied, IntakeOpen, Uploaded, Fulfilled, OfferSent, Paid, Activated]

  lemma FunnelIsEntered(run: seq<AccountState>, k: nat)
    requires IsRun(run) && k < |FUNNEL| && run[|run| - 1] == FUNNEL[k]
    ensures |run| > 1 && IsRun(run[..|run| - 1])
    ensures if k == 0 then run[|run| - 2] in {QualifiedAccount, Snoozed} else run[|run| - 2] == FUNNEL[k - 1]
  {
    assert FUNNEL[k] != RawSignal;
    FunnelHasOneEntrance(run[|run| - 2], k);
  }

  /** From contactable on, each state of the funnel is entered from the one before it only. */
  lemma {:induction false} RunEndsAlongFunnel(run: seq<AccountState>, k: nat)
    requires IsRun(run) && k < |FUNNEL| && run[|run| - 1] == FUNNEL[k]
    ensures |run| > k + 1 && run[|run| - k - 1..] == FUNNEL[..k + 1]
    ensures run[|run| - k - 2] in {QualifiedAccount, Snoozed}
  {
    var n := |run| - 1;
    FunnelIsEntered(run, k);
    if k == 0 {
      assert run[n..] == [run[n]] == FUNNEL[..1];
    } else {
      RunEndsAlongFunnel(run[..n], k - 1);
      assert run[|run| - k - 1..] == run[..n][n - k..] + [run[n]];
      assert FUNNEL[..k + 1] == FUNNEL[..k] + [FUNNEL[k]];
    }
  }

  /** Every run that reaches `activated` ends with exactly the nine steps of the funnel. */
  lemma ActivatedRunsEndWithFunnel(run: seq<AccountState>)
    requires IsRun(run) && run[|run| - 1] == Activated
    ensures |run| > 9 && run[|run| - 9..] == FUNNEL
    ensures run[|run| - 10] in {QualifiedAccount, Snoozed}
  {
    RunEndsAlongFunnel(run, 8);
    assert FUNNEL[..9] == FUNNEL;
  }

  lemma {:induction false} RunLengthByProgress(run: seq<AccountState>)
    requires IsRun(run)
    ensures |run| - 1 <= 10 * Snoozes(run) + Progress(run[|run| - 1])
  {
    var n := |run| - 1;
    if n > 0 {
      RunLengthByProgress(run[..n]);
      assert CanTransition(run[n - 1], run[n]);
      StepsMakeProgress(run[n - 1], run[n]);
    }
  }

  /** A run that falls asleep k times has at most 10k + 11 transitions. */
  lemma RunLengthBound(run: seq<AccountState>)
    requires IsRun(run)
    ensures |run| - 1 <= 10 * Snoozes(run) + 11
  {
    RunLengthByProgress(run);
  }

  /** From the first state after waking to the last one that can fall asleep. */
  const AWAKE: seq<AccountState> :=
    [CandidateAccount, QualifiedAccount, Contactable, Contacted, Replied, IntakeOpen, Uploaded, Fulfilled, OfferSent]

  ghost function LongestPrefix(k: nat): seq<AccountState> {
    if k == 0 then [RawSignal] else LongestPrefix(k - 1) + AWAKE + [Snoozed]
  }

  lemma PathsJoin(run: seq<AccountState>, more: seq<AccountState>)
    requires IsRun(run) && more != [] && IsPath(more) && CanTransition(run[|run| - 1], more[0])
    ensures IsRun(run + more)
  {
  }

  lemma CycleIsRun(run: seq<AccountState>)
    requires IsRun(run) && run[|run| - 1] in {RawSignal, Snoozed}
    ensures IsRun(run + AWAKE + [Snoozed]) && Snoozes(run + AWAKE + [Snoozed]) == Snoozes(run) + 1
  {
    PathsJoin(run, AWAKE);
    PathsJoin(run + AWAKE, [Snoozed]);
    SnoozesOfAwake(run, AWAKE);
    assert (run + AWAKE + [Snoozed])[..|run + AWAKE|] == run + AWAKE;
  }

  lemma {:induction false} LongestPrefixIsRun(k: nat)
    ensures var run := LongestPrefix(k);
            && IsRun(run) && |run| == 10 * k + 1 && Snoozes(run) == k
            && run[|run| - 1] == (if k == 0 then RawSignal else Snoozed)
  {
    if k > 0 {
      LongestPrefixIsRun(k - 1);
      CycleIsRun(LongestPrefix(k - 1));
    } else {
      assert [RawSignal][..0] == [];
    }
  }

  lemma {:induction false} SnoozesOfAwake(run: seq<AccountState>, awake: seq<AccountState>)
    requires Snoozed !in awake
    ensures Snoozes(run + awake) == Snoozes(run)
  {
    if awake == [] {
      assert run + awake == run;
    } else {
      SnoozesOfAwake(run, awake[..|awake| - 1]);
      assert (run + awake)[..|run + awake| - 1] == run + awake[..|awake| - 1];
    }
  }

  /** The bound is reached for every k. */
  lemma RunLengthBoundIsTight(k: nat) returns (run: seq<AccountState>)
    ensures IsRun(run) && Snoozes(run) == k && |run| - 1 == 10 * k + 11
  {
    var rest := [CandidateAccount, QualifiedAccount] + FUNNEL;
    LongestPrefixIsRun(k);
    PathsJoin(LongestPrefix(k), rest);
    SnoozesOfAwake(LongestPrefix(k), rest);
    run := LongestPrefix(k) + rest;
  }

  /** Qualification can be skipped, but only by an account that wakes up straight into `contactable`. */
  lemma SkippingQualificationMeansWaking(run: seq<AccountState>)
    requires IsRun(run) && run[|run| - 1] == Activated && QualifiedAccount !in run
    ensures exists i :: 0 < i < |run| && run[i - 1] == Snoozed && run[i] == Contactable
  {
    ActivatedRunsEndWithFunnel(run);
    assert run[|run| - 10] in run && run[|run| - 9] == run[|run| - 9..][0];
  }

  lemma QualificationCanBeSkipped()
    ensures var run := [RawSignal, CandidateAccount, Snoozed] + FUNNEL;
            IsRun(run) && run[|run| - 1] == Activated && QualifiedAccount !in run
  {
  }

  /** Whenever it is left, `snoozed` is left into one of these states. */
  ghost predicate WakesInto(run: seq<AccountState>, targets: set<AccountState>) {
    forall i :: 0 < i < |run| && run[i - 1] == Snoozed ==> run[i] in targets
  }

  /** When accounts wake into these states only, every activated one has been qualified. */
  ghost predicate ActivationNeedsQualification(targets: set<AccountState>) {
    forall run :: IsRun(run) && run[|run| - 1] == Activated && WakesInto(run, targets) ==> QualifiedAccount in run
  }

  /** Activated accounts have been qualified exactly as long as nobody wakes straight into `contactable`. */
  lemma ActivationNeedsQualificationIff(targets: set<AccountState>)
    ensures ActivationNeedsQualification(targets) <==> Contactable !in targets
  {
    if Contactable in targets {
      var run := [RawSignal, CandidateAccount, Snoozed] + FUNNEL;
      QualificationCanBeSkipped();
      assert WakesInto(run, targets);
    } else {
      forall run | IsRun(run) && run[|run| - 1] == Activated && WakesInto(run, targets)
        ensures QualifiedAccount in run
      {
        if QualifiedAccount !in run {
          SkippingQualificationMeansWaking(run);
        }
      }
    }
  }

  // ---- the audit trail ----------------------------------------------------------------------------

  type AccountId = string

  datatype AuditEvent = AuditEvent(account: AccountId, actor: string, oldState: AccountState, newState: AccountState)

  datatype Account = Account(state: AccountState, version: int)

  datatype Error = InvalidTransition(current: AccountState, target: AccountState) | NotFound

  /** Replaying the audit rows of one account on its initial record. */
  function Replay(initial: Account, log: seq<AuditEvent>, id: AccountId): Account {
    if log == [] then initial
    else
      var before, row := Replay(initial, log[..|log| - 1], id), log[|log| - 1];
      if row.account == id then Account(row.newState, before.version + 1) else before
  }

  function RowsOf(log: seq<AuditEvent>, id: AccountId): nat {
    if log == [] then 0 else RowsOf(log[..|log| - 1], id) + (if log[|log| - 1].account == id then 1 else 0)
  }

  /** Each row of the log starts where the earlier rows of its account ended, and makes a valid step. */
  ghost predicate Chained(initial: map<AccountId, Account>, log: seq<AuditEvent>) {
    forall k {:trigger log[k]} :: 0 <= k < |log| ==>
      && log[k].account in initial
      && log[k].oldState == Replay(initial[log[k].account], log[..k], log[k].account).state
      && CanTransition(log[k].oldState, log[k].newState)
  }

  /** The table is what the audit trail says, starting from the initial records. */
  ghost predicate Explains(initial: map<AccountId, Account>, log: seq<AuditEvent>, accounts: map<AccountId, Account>) {
    && accounts.Keys == initial.Keys
    && Chained(initial, log)
    && forall id :: id in initial ==> accounts[id] == Replay(initial[id], log, id)
  }

  lemma {:induction false} VersionCountsRows(initial: Account, log: seq<AuditEvent>, id: AccountId)
    ensures Replay(initial, log, id).version == initial.version + RowsOf(log, id)
  {
    if log != [] {
      VersionCountsRows(initial, log[..|log| - 1], id);
    }
  }

  lemma AppendKeepsExplanation(initial: map<AccountId, Account>, log: seq<AuditEvent>,
                               accounts: map<AccountId, Account>, row: AuditEvent)
    requires Explains(initial, log, accounts)
    requires row.account in accounts && row.oldState == accounts[row.account].state
             && CanTransition(row.oldState, row.newState)
    ensures Explains(initial, log + [row],
                     accounts[row.account := Account(row.newState, accounts[row.account].version + 1)])
  {
    var next := log + [row];
    assert next[..|log|] == log;
    forall k | 0 <= k < |next|
      ensures && next[k].account in initial
              && next[k].oldState == Replay(initial[next[k].account], next[..k], next[k].account).state
              && CanTransition(next[k].oldState, next[k].newState)
    {
      if k < |log| {
        assert next[k] == log[k] && next[..k] == log[..k];
      }
    }
  }

  class StateMachine {
    var accounts: map<AccountId, Account>
    var audit: seq<AuditEvent>
    ghost const initial: map<AccountId, Account>

    /** The state and version of every account follow from its initial record and the audit trail. */
    ghost predicate Valid()
      reads this
    {
      Explains(initial, audit, accounts)
    }

    constructor (accounts: map<AccountId, Account>)
      ensures Valid() && this.accounts == accounts && audit == []
    {
      this.accounts, audit, initial := accounts, [], accounts;
    }

    /** `transition_by_id`: changes the account and writes one audit row, or changes nothing. */
    method TransitionById(id: AccountId, target: AccountState, actor: string) returns (r: Result<Account, Error>)
      requires Valid()
      modifies this`accounts, this`audit
      ensures Valid()
      ensures id !in old(accounts) ==> r == Err(NotFound)
      ensures id in old(accounts) && !CanTransition(old(accounts)[id].state, target) ==>
                r == Err(InvalidTransition(old(accounts)[id].state, target))
      ensures r.Err? ==> accounts == old(accounts) && audit == old(audit)
      ensures id in old(accounts) && CanTransition(old(accounts)[id].state, target) ==>
                && r == Ok(Account(target, old(accounts)[id].version + 1))
                && accounts == old(accounts)[id := r.value]
                && audit == old(audit) + [AuditEvent(id, actor, old(accounts)[id].state, target)]
    {
      if id !in accounts {
        return Err(NotFound);
      }
      var account := accounts[id];
      var current := account.state;
      if !CanTransition(current, target) {
        return Err(InvalidTransition(current, target));
      }
      account := account.(state := target);
      account := account.(version := account.version + 1);
      assert account == Account(target, accounts[id].version + 1);
      var row := AuditEvent(id, actor, current, target);
      AppendKeepsExplanation(initial, audit, accounts, row);
      accounts := accounts[id := account];
      audit := audit + [row];
      return Ok(account);
    }

    /** An account that started at version `v` has version `v` plus the number of its audit rows. */
    lemma VersionsCountAuditRows(id: AccountId)
      requires Valid() && id in accounts
      ensures id in initial && accounts[id].version == initial[id].version + RowsOf(audit, id)
    {
      VersionCountsRows(initial[id], audit, id);
    }
  }
}
