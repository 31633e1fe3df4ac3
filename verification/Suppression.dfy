/**
 The suppression list and the sending worker that obeys it (libs/policy/suppression.py,
 workers/send/send_worker.py).
 */
module Suppression {
  import opened Wrappers
  import opened Text

  datatype Scope = Email | Domain | Account | Campaign

  datatype Reason = Unsubscribe | LegalRequest | HardBounce | ManualBlock | WrongPerson | Complaint

  datatype Record = Record(scope: Scope, key: string, reason: Reason)

  function ScopeName(scope: Scope): string {
    match scope
    case Email => "email"
    case Domain => "domain"
    case Account => "account"
    case Campaign => "campaign"
  }

  /** `key.lower().strip()` */
  function Norm(key: string): string {
    Strip(Lower(key))
  }

  /** `_make_key` */
  function MakeKey(scope: Scope, key: string): string {
    ScopeName(scope) + ":" + Norm(key)
  }

  /** Entries of different scopes never collide, and within a scope only the normalised key counts. */
  lemma MakeKeyIsInjective(s: Scope, x: string, t: Scope, y: string)
    ensures MakeKey(s, x) == MakeKey(t, y) <==> s == t && Norm(x) == Norm(y)
  {
    if MakeKey(s, x) == MakeKey(t, y) {
      assert MakeKey(s, x)[0] == ScopeName(s)[0] && MakeKey(t, y)[0] == ScopeName(t)[0];
      assert MakeKey(s, x)[1] == ScopeName(s)[1] && MakeKey(t, y)[1] == ScopeName(t)[1];
      var n := |ScopeName(s)| + 1;
      assert MakeKey(s, x)[n..] == Norm(x) && MakeKey(t, y)[n..] == Norm(y);
    }
  }

  type Entries = map<string, Record>

  function KeyIfAny(scope: Scope, key: string): seq<string> {
    if key != "" then [MakeKey(scope, key)] else []
  }

  function DomainChecks(email: string, domain: string): seq<string> {
    if domain != "" then [MakeKey(Domain, domain)]
    else if email != "" && '@' in email then [MakeKey(Domain, DomainOf(email))]
    else []
  }

  /** The keys that `is_suppressed` looks up, in order. */
  function Checks(email: string, domain: string, account: string, campaign: string): seq<string> {
    KeyIfAny(Email, email) + DomainChecks(email, domain) + KeyIfAny(Account, account) + KeyIfAny(Campaign, campaign)
  }

  /** The first entry found under one of the keys. */
  function FirstHit(entries: Entries, checks: seq<string>): (r: Option<Record>)
    ensures r.None? <==> forall i :: 0 <= i < |checks| ==> checks[i] !in entries
  {
    if checks == [] then None
    else if checks[0] in entries then Some(entries[checks[0]])
    else FirstHit(entries, checks[1..])
  }

  function Added(entries: Entries, scope: Scope, key: string, reason: Reason): Entries {
    entries[MakeKey(scope, key) := Record(scope, Norm(key), reason)]
  }

  function Imported(entries: Entries, records: seq<Record>): Entries {
    if records == [] then entries
    else
      var n := |records| - 1;
      Added(Imported(entries, records[..n]), records[n].scope, records[n].key, records[n].reason)
  }

  /** The address, its domain or the account is on the list. */
  predicate Listed(entries: Entries, email: string, account: string) {
    || MakeKey(Email, email) in entries
    || ('@' in email && MakeKey(Domain, DomainOf(email)) in entries)
    || (account != "" && MakeKey(Account, account) in entries)
  }

  // ---- runs ----------------------------------------------------------------------------------------

  datatype SendTask = SendTask(recipient: string, account: string, subject: string, body: string,
                               policyDecision: string, budgetToken: string)

  datatype SendError =
    | MissingPolicy | MissingBudget | MissingRecipient | MissingContent | Suppressed(reason: Reason) | Transport

  function Omissions(task: SendTask): seq<SendError> {
    (if task.policyDecision == "" then [MissingPolicy] else [])
    + (if task.budgetToken == "" then [MissingBudget] else [])
    + (if task.recipient == "" then [MissingRecipient] else [])
    + (if task.subject == "" || task.body == "" then [MissingContent] else [])
  }

  /** `validate_task` */
  function Validate(entries: Entries, task: SendTask): seq<SendError> {
    var hit := FirstHit(entries, Checks(task.recipient, "", task.account, ""));
    Omissions(task) + (if hit.Some? then [Suppressed(hit.value.reason)] else [])
  }

  lemma FirstHitOfConcat(entries: Entries, a: seq<string>, b: seq<string>)
    ensures FirstHit(entries, a + b).Some? <==> FirstHit(entries, a).Some? || FirstHit(entries, b).Some?
  {
    var all := a + b;
    assert forall i :: 0 <= i < |a| ==> all[i] == a[i];
    assert forall i :: 0 <= i < |b| ==> all[|a| + i] == b[i];
  }

  lemma HitIffListed(entries: Entries, email: string, account: string)
    requires email != ""
    ensures FirstHit(entries, Checks(email, "", account, "")).Some? <==> Listed(entries, email, account)
  {
    var a, b, c := KeyIfAny(Email, email), DomainChecks(email, ""), KeyIfAny(Account, account);
    assert Checks(email, "", account, "") == a + b + c;
    FirstHitOfConcat(entries, a + b, c);
    FirstHitOfConcat(entries, a, b);
  }

  /** A task passes exactly when it is complete and nothing about its recipient is listed. */
  lemma ValidIffCompleteAndUnlisted(entries: Entries, task: SendTask)
    ensures Validate(entries, task) == [] <==>
            && task.policyDecision != "" && task.budgetToken != "" && task.recipient != ""
            && task.subject != "" && task.body != ""
            && !Listed(entries, task.recipient, task.account)
  {
    if task.recipient != "" {
      HitIffListed(entries, task.recipient, task.account);
    }
  }

  /** Which errors are reported, and in which order: the omissions first, the suppression last. */
  lemma ErrorsIff(entries: Entries, task: SendTask)
    ensures var errors := Validate(entries, task);
            var listed := if task.recipient != "" then Listed(entries, task.recipient, task.account)
                          else task.account != "" && MakeKey(Account, task.account) in entries;
            && (MissingPolicy in errors <==> task.policyDecision == "")
            && (MissingBudget in errors <==> task.budgetToken == "")
            && (MissingRecipient in errors <==> task.recipient == "")
            && (MissingContent in errors <==> task.subject == "" || task.body == "")
            && Transport !in errors
            && (listed <==> exists reason :: Suppressed(reason) in errors)
            && (listed ==> errors[|errors| - 1].Suppressed?)
            && (forall i :: 0 <= i < |errors| - 1 ==> !errors[i].Suppressed?)
    ensures var record := InOrder(entries, task.recipient, DomainOf(task.recipient), '@' in task.recipient,
                                  task.account, "");
            record.Some? ==> Validate(entries, task)[|Validate(entries, task)| - 1] == Suppressed(record.value.reason)
  {
    HitInOrder(entries, task.recipient, "", task.account, "");
    var hit := FirstHit(entries, Checks(task.recipient, "", task.account, ""));
    TaskIsHitIff(entries, task);
    OmissionsIff(task);
    AppendedErrors(Omissions(task), if hit.Some? then [Suppressed(hit.value.reason)] else []);
  }

  lemma TaskIsHitIff(entries: Entries, task: SendTask)
    ensures FirstHit(entries, Checks(task.recipient, "", task.account, "")).Some? <==>
            if task.recipient != "" then Listed(entries, task.recipient, task.account)
            else task.account != "" && MakeKey(Account, task.account) in entries
  {
    if task.recipient != "" {
      HitIffListed(entries, task.recipient, task.account);
    } else {
      assert Checks("", "", task.account, "") == KeyIfAny(Account, task.account);
    }
  }

  /** Errors that are no suppressions, and one suppression behind them or none. */
  lemma AppendedErrors(errors: seq<SendError>, last: seq<SendError>)
    requires (forall e :: e in errors ==> !e.Suppressed? && !e.Transport?) && |last| <= 1
    requires forall e :: e in last ==> e.Suppressed?
    ensures forall e: SendError :: !e.Suppressed? ==> (e in errors + last <==> e in errors)
    ensures last != [] <==> exists reason :: Suppressed(reason) in errors + last
    ensures last != [] ==> (errors + last)[|errors + last| - 1].Suppressed?
    ensures forall i :: 0 <= i < |errors + last| - 1 ==> !(errors + last)[i].Suppressed?
  {
    if last != [] {
      assert last[0] in errors + last && last[0] == Suppressed(last[0].reason);
    }
  }

  lemma OmissionsIff(task: SendTask)
    ensures MissingPolicy in Omissions(task) <==> task.policyDecision == ""
    ensures MissingBudget in Omissions(task) <==> task.budgetToken == ""
    ensures MissingRecipient in Omissions(task) <==> task.recipient == ""
    ensures MissingContent in Omissions(task) <==> task.subject == "" || task.body == ""
    ensures forall e :: e in Omissions(task) ==> !e.Suppressed? && !e.Transport?
  {
    var a, b := if task.policyDecision == "" then [MissingPolicy] else [],
                if task.budgetToken == "" then [MissingBudget] else [];
    var c, d := if task.recipient == "" then [MissingRecipient] else [],
                if task.subject == "" || task.body == "" then [MissingContent] else [];
    assert forall e :: e in a + b + c + d <==> e in a || e in b || e in c || e in d;
  }

  /** A record to import names an entry by its scope and any text with the same normal form. */
  predicate Names(record: Record, scope: Scope, key: string) {
    record.scope == scope && Norm(record.key) == Norm(key)
  }

  lemma ImportOfOne(entries: Entries, record: Record, scope: Scope, key: string)
    ensures var after := Added(entries, record.scope, record.key, record.reason);
            if Names(record, scope, key)
            then Holds(after, MakeKey(scope, key), Record(scope, Norm(key), record.reason))
            else SameEntry(entries, after, MakeKey(scope, key))
  {
    MakeKeyIsInjective(scope, key, record.scope, record.key);
  }

  ghost predicate Holds(entries: Entries, k: string, record: Record) {
    k in entries && entries[k] == record
  }

  ghost predicate SameEntry(before: Entries, after: Entries, k: string) {
    (k in after <==> k in before) && (k in before ==> after[k] == before[k])
  }

  /** An import leaves the entries alone that it does not name ... */
  lemma {:induction false} ImportKeepsOthers(entries: Entries, records: seq<Record>, scope: Scope, key: string)
    requires forall k :: 0 <= k < |records| ==> !Names(records[k], scope, key)
    ensures SameEntry(entries, Imported(entries, records), MakeKey(scope, key))
  {
    if records != [] {
      var n := |records| - 1;
      ImportKeepsOthers(entries, records[..n], scope, key);
      ImportOfOne(Imported(entries, records[..n]), records[n], scope, key);
    }
  }

  lemma OneRecordMore(entries: Entries, records: seq<Record>, n: nat)
    requires n < |records|
    ensures Imported(entries, records[..n + 1])
            == Added(Imported(entries, records[..n]), records[n].scope, records[n].key, records[n].reason)
  {
    assert records[..n + 1][..n] == records[..n];
  }

  lemma {:induction false} ImportedRecordStays(entries: Entries, records: seq<Record>, scope: Scope, key: string,
                                               j: nat, n: nat)
    requires j < n <= |records| && Names(records[j], scope, key)
    requires forall k :: j < k < n ==> !Names(records[k], scope, key)
    ensures Holds(Imported(entries, records[..n]), MakeKey(scope, key), Record(scope, Norm(key), records[j].reason))
    decreases n
  {
    OneRecordMore(entries, records, n - 1);
    ImportOfOne(Imported(entries, records[..n - 1]), records[n - 1], scope, key);
    if j < n - 1 {
      ImportedRecordStays(entries, records, scope, key, j, n - 1);
    }
  }

  /** ... and of several records that name one entry the last counts. */
  lemma LastImportCounts(entries: Entries, records: seq<Record>, scope: Scope, key: string, j: nat)
    requires j < |records| && Names(records[j], scope, key)
    requires forall k :: j < k < |records| ==> !Names(records[k], scope, key)
    ensures Holds(Imported(entries, records), MakeKey(scope, key), Record(scope, Norm(key), records[j].reason))
  {
    ImportedRecordStays(entries, records, scope, key, j, |records|);
    assert records[..|records|] == records;
  }

  datatype Step =
    | Bounce(recipient: string, hard: bool)
    | Complain(recipient: string)
    | Add(scope: Scope, key: string, reason: Reason)
    | Import(records: seq<Record>)
    | Remove(scope: Scope, key: string)
    | Send(task: SendTask, delivers: bool)

  function Apply(entries: Entries, step: Step): Entries {
    match step
    case Bounce(recipient, hard) => if hard then Added(entries, Email, recipient, HardBounce) else entries
    case Complain(recipient) => Added(entries, Email, recipient, Complaint)
    case Add(scope, key, reason) => Added(entries, scope, key, reason)
    case Import(records) => Imported(entries, records)
    case Remove(scope, key) => entries - {MakeKey(scope, key)}
    case Send(_, _) => entries
  }

  function ApplyAll(entries: Entries, steps: seq<Step>): Entries {
    if steps == [] then entries else Apply(ApplyAll(entries, steps[..|steps| - 1]), steps[|steps| - 1])
  }

  /** What a step adds to the log of sends. */
  function SentBy(entries: Entries, step: Step): seq<SendTask> {
    if step.Send? && step.delivers && Validate(entries, step.task) == [] then [step.task] else []
  }

  /** The log of sends of a run. */
  function Log(entries: Entries, steps: seq<Step>): seq<SendTask> {
    if steps == [] then []
    else
      var n := |steps| - 1;
      Log(entries, steps[..n]) + SentBy(ApplyAll(entries, steps[..n]), steps[n])
  }

  /**
   In every run each logged send was made at a moment when its address, its domain and its account were
   not listed.
   */
  lemma {:induction false} EverySendWasUnlisted(entries: Entries, steps: seq<Step>, p: nat) returns (k: nat)
    requires p < |Log(entries, steps)|
    ensures k < |steps| && steps[k] == Send(Log(entries, steps)[p], true)
    ensures var task := Log(entries, steps)[p];
            !Listed(ApplyAll(entries, steps[..k]), task.recipient, task.account)
  {
    var n := |steps| - 1;
    if p < |Log(entries, steps[..n])| {
      k := EverySendWasUnlisted(entries, steps[..n], p);
      assert steps[..n][..k] == steps[..k];
    } else {
      k := n;
      ValidIffCompleteAndUnlisted(ApplyAll(entries, steps[..n]), steps[n].task);
    }
  }

  lemma {:induction false} ImportKeepsEntries(entries: Entries, records: seq<Record>, k: string)
    requires k in entries
    ensures k in Imported(entries, records)
  {
    if records != [] {
      ImportKeepsEntries(entries, records[..|records| - 1], k);
    }
  }

  predicate Removes(step: Step, scope: Scope, key: string) {
    step.Remove? && step.scope == scope && Norm(step.key) == Norm(key)
  }

  /** No step removes this entry by name. */
  ghost predicate NeverRemoved(steps: seq<Step>, scope: Scope, key: string) {
    forall i :: 0 <= i < |steps| ==> !Removes(steps[i], scope, key)
  }

  lemma StepKeepsEntry(entries: Entries, step: Step, scope: Scope, key: string)
    requires MakeKey(scope, key) in entries && !Removes(step, scope, key)
    ensures MakeKey(scope, key) in Apply(entries, step)
  {
    if step.Remove? {
      MakeKeyIsInjective(scope, key, step.scope, step.key);
    } else if step.Import? {
      ImportKeepsEntries(entries, step.records, MakeKey(scope, key));
    }
  }

  /** An entry stays on the list through any steps that do not remove it by name. */
  lemma {:induction false} EntryStaysUntilRemoved(entries: Entries, steps: seq<Step>, scope: Scope, key: string)
    requires MakeKey(scope, key) in entries && NeverRemoved(steps, scope, key)
    ensures MakeKey(scope, key) in ApplyAll(entries, steps)
  {
    if steps != [] {
      var n := |steps| - 1;
      EntryStaysUntilRemoved(entries, steps[..n], scope, key);
      StepKeepsEntry(ApplyAll(entries, steps[..n]), steps[n], scope, key);
    }
  }

  /** An entry under this key concerns whom the message goes to: the address, its domain or the account. */
  ghost predicate Concerns(scope: Scope, key: string, task: SendTask) {
    match scope
    case Email => Norm(task.recipient) == Norm(key)
    case Domain => '@' in task.recipient && Norm(DomainOf(task.recipient)) == Norm(key)
    case Account => task.account != "" && Norm(task.account) == Norm(key)
    case Campaign => false
  }

  /** Once an address, a domain or an account is listed, no task that it concerns passes until it is removed. */
  lemma ListedIsNeverMailed(entries: Entries, steps: seq<Step>, scope: Scope, key: string, task: SendTask)
    requires MakeKey(scope, key) in entries && NeverRemoved(steps, scope, key) && Concerns(scope, key, task)
    ensures Validate(ApplyAll(entries, steps), task) != []
  {
    EntryStaysUntilRemoved(entries, steps, scope, key);
    ValidIffCompleteAndUnlisted(ApplyAll(entries, steps), task);
  }

  /** From entry `n` of the log on, none concerns the entry of the list. */
  ghost predicate NoneConcerned(log: seq<SendTask>, n: nat, scope: Scope, key: string) {
    n <= |log| && forall p :: n <= p < |log| ==> !Concerns(scope, key, log[p])
  }

  lemma ListedSendsNothing(entries: Entries, step: Step, scope: Scope, key: string)
    requires MakeKey(scope, key) in entries
    ensures NoneConcerned(SentBy(entries, step), 0, scope, key)
  {
    if step.Send? && Concerns(scope, key, step.task) {
      ListedIsNeverMailed(entries, [], scope, key, step.task);
    }
  }

  lemma StepLogsNoneConcerned(entries: Entries, log: seq<SendTask>, n: nat, step: Step, scope: Scope, key: string)
    requires MakeKey(scope, key) in entries && !Removes(step, scope, key) && NoneConcerned(log, n, scope, key)
    ensures MakeKey(scope, key) in Apply(entries, step)
    ensures NoneConcerned(log + SentBy(entries, step), n, scope, key)
  {
    StepKeepsEntry(entries, step, scope, key);
    ListedSendsNothing(entries, step, scope, key);
  }

  /** After `n` steps the entry is listed, and the log from `m` on has nothing that it concerns. */
  ghost predicate SilentAt(entries: Entries, steps: seq<Step>, n: nat, m: nat, scope: Scope, key: string)
    requires n <= |steps|
  {
    && MakeKey(scope, key) in ApplyAll(entries, steps[..n])
    && NoneConcerned(Log(entries, steps[..n]), m, scope, key)
  }

  lemma OneStepMore(entries: Entries, steps: seq<Step>, n: nat)
    requires n < |steps|
    ensures ApplyAll(entries, steps[..n + 1]) == Apply(ApplyAll(entries, steps[..n]), steps[n])
    ensures Log(entries, steps[..n + 1])
            == Log(entries, steps[..n]) + SentBy(ApplyAll(entries, steps[..n]), steps[n])
  {
    assert steps[..n + 1][..n] == steps[..n];
  }

  lemma StepKeepsSilence(entries: Entries, steps: seq<Step>, n: nat, m: nat, scope: Scope, key: string)
    requires n < |steps| && SilentAt(entries, steps, n, m, scope, key) && !Removes(steps[n], scope, key)
    ensures SilentAt(entries, steps, n + 1, m, scope, key)
  {
    OneStepMore(entries, steps, n);
    StepLogsNoneConcerned(ApplyAll(entries, steps[..n]), Log(entries, steps[..n]), m, steps[n], scope, key);
  }

  lemma {:induction false} SilenceLasts(entries: Entries, steps: seq<Step>, j: nat, n: nat, m: nat, scope: Scope,
                                        key: string)
    requires j <= n <= |steps| && SilentAt(entries, steps, j, m, scope, key)
    requires forall k :: j <= k < n ==> !Removes(steps[k], scope, key)
    ensures SilentAt(entries, steps, n, m, scope, key)
    decreases n
  {
    if j < n {
      SilenceLasts(entries, steps, j, n - 1, m, scope, key);
      StepKeepsSilence(entries, steps, n - 1, m, scope, key);
    }
  }

  /**
   In a run in which an entry is listed after `j` steps, and never removed later, nothing it concerns
   is logged from then on.
   */
  lemma NothingIsLoggedWhileListed(entries: Entries, steps: seq<Step>, j: nat, scope: Scope, key: string)
    requires j <= |steps| && MakeKey(scope, key) in ApplyAll(entries, steps[..j])
    requires forall k :: j <= k < |steps| ==> !Removes(steps[k], scope, key)
    ensures MakeKey(scope, key) in ApplyAll(entries, steps)
    ensures NoneConcerned(Log(entries, steps), |Log(entries, steps[..j])|, scope, key)
  {
    SilenceLasts(entries, steps, j, |steps|, |Log(entries, steps[..j])|, scope, key);
    assert steps[..|steps|] == steps;
  }

  /** `v` is `email` in another case, padded with blanks. */
  ghost predicate IsVariant(v: string, email: string) {
    exists before, core, after ::
      IsBlank(before) && IsBlank(after) && Lower(core) == Lower(email) && v == before + core + after
  }

  lemma VariantsShareNorm(v: string, email: string)
    requires IsVariant(v, email)
    ensures Norm(v) == Norm(email)
  {
    var before, core, after :|
      IsBlank(before) && IsBlank(after) && Lower(core) == Lower(email) && v == before + core + after;
    assert Lower(v) == Lower(before) + Lower(core) + Lower(after);
    StripDropsPadding(Lower(before), Lower(core), Lower(after));
  }

  /** One entry covers exactly the variants of the stripped address, and no other text. */
  lemma NormSharedIffVariant(v: string, email: string)
    ensures Norm(v) == Norm(email) <==> IsVariant(v, Strip(email))
  {
    StripOfLower(v);
    StripOfLower(email);
    var before, after := StripIsCore(v);
    if Norm(v) == Norm(email) {
      assert Lower(Strip(v)) == Lower(Strip(email));
    }
    if IsVariant(v, Strip(email)) {
      VariantsShareNorm(v, Strip(email));
      StripTwice(email);
    }
  }

  lemma StripTwice(email: string)
    ensures Norm(Strip(email)) == Norm(email)
  {
    StripOfLower(email);
    var before, after := StripIsCore(email);
    StripOfLower(Strip(email));
    StripDropsPadding(before, Strip(email), after);
  }

  /**
   After a hard bounce or a complaint, whatever else happens, no variant of the address can be sent
   to until that address is explicitly removed.
   */
  lemma BouncedAddressIsNeverMailed(entries: Entries, event: Step, steps: seq<Step>, task: SendTask)
    requires event.Complain? || (event.Bounce? && event.hard)
    requires IsVariant(task.recipient, Strip(event.recipient))
    requires NeverRemoved(steps, Email, event.recipient)
    ensures Validate(ApplyAll(Apply(entries, event), steps), task) != []
  {
    NormSharedIffVariant(task.recipient, event.recipient);
    ListedIsNeverMailed(Apply(entries, event), steps, Email, event.recipient, task);
  }

  lemma FirstOfConcat(entries: Entries, a: seq<string>, b: seq<string>)
    ensures FirstHit(entries, a + b)
            == if FirstHit(entries, a).Some? then FirstHit(entries, a) else FirstHit(entries, b)
    decreases |a|
  {
    if a == [] {
      assert a + b == b;
    } else {
      assert (a + b)[1..] == a[1..] + b;
      FirstOfConcat(entries, a[1..], b);
    }
  }

  /** The first of these entries that is there; blanks and the domain of a text without at-sign are not asked for. */
  ghost function InOrder(entries: Entries, email: string, domain: string, asked: bool, account: string,
                         campaign: string): Option<Record> {
    if email != "" && MakeKey(Email, email) in entries then Some(entries[MakeKey(Email, email)])
    else if asked && MakeKey(Domain, domain) in entries then Some(entries[MakeKey(Domain, domain)])
    else if account != "" && MakeKey(Account, account) in entries then Some(entries[MakeKey(Account, account)])
    else if campaign != "" && MakeKey(Campaign, campaign) in entries then Some(entries[MakeKey(Campaign, campaign)])
    else None
  }

  lemma HitOfFour(entries: Entries, a: seq<string>, b: seq<string>, c: seq<string>, d: seq<string>)
    ensures FirstHit(entries, a + b + c + d) == if FirstHit(entries, a).Some? then FirstHit(entries, a)
                                                else if FirstHit(entries, b).Some? then FirstHit(entries, b)
                                                else if FirstHit(entries, c).Some? then FirstHit(entries, c)
                                                else FirstHit(entries, d)
  {
    FirstOfConcat(entries, a + b + c, d);
    FirstOfConcat(entries, a + b, c);
    FirstOfConcat(entries, a, b);
  }

  lemma HitOfOne(entries: Entries, asked: bool, k: string)
    ensures FirstHit(entries, if asked then [k] else []) == if asked && k in entries then Some(entries[k]) else None
  {
  }

  /** The list is asked for the address, then the domain, then the account, then the campaign. */
  lemma HitInOrder(entries: Entries, email: string, domain: string, account: string, campaign: string)
    ensures FirstHit(entries, Checks(email, domain, account, campaign)) ==
            InOrder(entries, email, if domain == "" then DomainOf(email) else domain,
                    domain != "" || '@' in email, account, campaign)
  {
    var asked := if domain == "" then DomainOf(email) else domain;
    HitOfFour(entries, KeyIfAny(Email, email), DomainChecks(email, domain), KeyIfAny(Account, account),
              KeyIfAny(Campaign, campaign));
    HitOfOne(entries, email != "", MakeKey(Email, email));
    HitOfOne(entries, domain != "" || '@' in email, MakeKey(Domain, asked));
    HitOfOne(entries, account != "", MakeKey(Account, account));
    HitOfOne(entries, campaign != "", MakeKey(Campaign, campaign));
  }

  // ---- the service and the worker that share it --------------------------------------------------------

  /** The loop of `is_suppressed` over the keys. */
  method LookUp(entries: Entries, checks: seq<string>) returns (record: Option<Record>)
    ensures record == FirstHit(entries, checks)
  {
    for i := 0 to |checks|
      invariant FirstHit(entries, checks[i..]) == FirstHit(entries, checks)
    {
      if checks[i] in entries {
        return Some(entries[checks[i]]);
      }
      assert checks[i..][1..] == checks[i + 1..];
    }
    return None;
  }

  class SuppressionService {
    var entries: Entries

    constructor ()
      ensures entries == map[]
    {
      entries := map[];
    }

    method AddEntry(scope: Scope, key: string, reason: Reason) returns (record: Record)
      modifies this
      ensures entries == old(entries)[MakeKey(scope, key) := Record(scope, Norm(key), reason)]
      ensures entries == Apply(old(entries), Add(scope, key, reason)) && record == Record(scope, Norm(key), reason)
    {
      record := Record(scope, Norm(key), reason);
      entries := entries[MakeKey(scope, key) := record];
    }

    /** The four lookups of `is_suppressed`, each of which may be without a key. */
    method IsSuppressed(email: string, domain: string, account: string, campaign: string)
      returns (record: Option<Record>)
      ensures record == FirstHit(entries, Checks(email, domain, account, campaign))
      ensures record == InOrder(entries, email, if domain == "" then DomainOf(email) else domain,
                                domain != "" || '@' in email, account, campaign)
    {
      HitInOrder(entries, email, domain, account, campaign);
      var checks: seq<string> := [];
      if email != "" {
        checks := checks + [MakeKey(Email, email)];
      }
      assert checks == KeyIfAny(Email, email);
      if domain != "" {
        checks := checks + [MakeKey(Domain, domain)];
      } else if email != "" && '@' in email {
        checks := checks + [MakeKey(Domain, DomainOf(email))];
      }
      assert checks == KeyIfAny(Email, email) + DomainChecks(email, domain);
      if account != "" {
        checks := checks + [MakeKey(Account, account)];
      }
      if campaign != "" {
        checks := checks + [MakeKey(Campaign, campaign)];
      }
      assert checks == Checks(email, domain, account, campaign);
      record := LookUp(entries, checks);
    }

    method RemoveEntry(scope: Scope, key: string) returns (removed: bool)
      modifies this
      ensures entries == old(entries) - {MakeKey(scope, key)}
      ensures entries == Apply(old(entries), Remove(scope, key))
      ensures removed <==> MakeKey(scope, key) in old(entries)
    {
      var composite := MakeKey(scope, key);
      if composite in entries {
        entries := entries - {composite};
        return true;
      }
      return false;
    }

    method BulkImport(records: seq<Record>) returns (count: nat)
      modifies this
      ensures entries == Apply(old(entries), Import(records)) && count == |records|
    {
      count := 0;
      for i := 0 to |records|
        invariant entries == Imported(old(entries), records[..i]) && count == i
      {
        var record := AddEntry(records[i].scope, records[i].key, records[i].reason);
        assert records[..i + 1][..i] == records[..i];
        count := count + 1;
      }
      assert records[..|records|] == records;
    }
  }

  class SendWorker {
    const suppression: SuppressionService
    var sent: seq<SendTask>

    constructor (suppression: SuppressionService)
      ensures this.suppression == suppression && sent == []
    {
      this.suppression, sent := suppression, [];
    }

    method ValidateTask(task: SendTask) returns (errors: seq<SendError>)
      ensures errors == Validate(suppression.entries, task)
    {
      errors := [];
      if task.policyDecision == "" {
        errors := errors + [MissingPolicy];
      }
      if task.budgetToken == "" {
        errors := errors + [MissingBudget];
      }
      if task.recipient == "" {
        errors := errors + [MissingRecipient];
      }
      if task.subject == "" || task.body == "" {
        errors := errors + [MissingContent];
      }
      assert errors == Omissions(task);
      var hit := suppression.IsSuppressed(task.recipient, "", task.account, "");
      if hit.Some? {
        errors := errors + [Suppressed(hit.value.reason)];
      }
    }

    /** `send`; whether the transport delivers is decided outside. */
    method SendMessage(task: SendTask, delivers: bool) returns (errors: seq<SendError>)
      modifies this`sent
      ensures errors == (if Validate(suppression.entries, task) != [] then Validate(suppression.entries, task)
                         else if !delivers then [Transport] else [])
      ensures sent == old(sent) + SentBy(suppression.entries, Send(task, delivers))
      ensures sent == if errors == [] then old(sent) + [task] else old(sent)
      ensures errors == [] ==> !Listed(suppression.entries, task.recipient, task.account)
    {
      ValidIffCompleteAndUnlisted(suppression.entries, task);
      errors := ValidateTask(task);
      if |errors| > 0 {
        return errors;
      }
      if !delivers {
        return [Transport];
      }
      sent := sent + [task];
    }

    method ProcessBounce(recipient: string, hard: bool)
      modifies suppression
      ensures hard ==> suppression.entries ==
                       old(suppression.entries)[MakeKey(Email, recipient) := Record(Email, Norm(recipient), HardBounce)]
      ensures !hard ==> suppression.entries == old(suppression.entries)
      ensures suppression.entries == Apply(old(suppression.entries), Bounce(recipient, hard))
    {
      if hard {
        var record := suppression.AddEntry(Email, recipient, HardBounce);
      }
    }

    method ProcessComplaint(recipient: string)
      modifies suppression
      ensures suppression.entries ==
              old(suppression.entries)[MakeKey(Email, recipient) := Record(Email, Norm(recipient), Complaint)]
      ensures suppression.entries == Apply(old(suppression.entries), Complain(recipient))
    {
      var record := suppression.AddEntry(Email, recipient, Complaint);
    }
  }
}
