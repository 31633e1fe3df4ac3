/**
 Checkout sessions, webhooks that may be delivered more than once, and activations
 (workers/fulfillment/billing.py).
 */
module Billing {
  import opened Wrappers
  import opened Instants

  datatype SessionStatus = Pending | Paid | Expired

  datatype Session = Session(
    id: string,
    stripeId: string,
    account: string,
    plan: string,
    amountCents: int,
    idempotencyKey: string,
    status: SessionStatus,
    paidAt: Option<Instant>
  )

  datatype Subscription = Subscription(account: string, plan: string, stripeSubscription: string)

  datatype Activation = Activation(account: string, checkout: string, plan: string)

  /** Sessions in the order in which they were created. */
  datatype State = State(
    sessions: seq<Session>,
    processed: set<string>,
    subscriptions: seq<Subscription>,
    activations: seq<Activation>
  )

  const EMPTY := State([], {}, [], [])

  datatype EventType = Completed | ExpiredEvent | OtherEvent

  /** A checkout brings the ids it would use for a new session; a webhook is one delivery of an event. */
  datatype Step =
    | Checkout(account: string, plan: string, amountCents: int, id: string, stripeId: string)
    | Webhook(at: Instant, eventId: string, eventType: EventType, stripeId: string, subscription: string)

  function CheckoutKey(account: string, plan: string): string {
    "checkout:" + account + ":" + plan
  }

  function FindPending(sessions: seq<Session>, key: string): (i: nat)
    ensures i <= |sessions|
    ensures i < |sessions| ==> sessions[i].idempotencyKey == key && sessions[i].status == Pending
    ensures forall j :: 0 <= j < i ==> !(sessions[j].idempotencyKey == key && sessions[j].status == Pending)
  {
    if sessions == [] || (sessions[0].idempotencyKey == key && sessions[0].status == Pending) then 0
    else 1 + FindPending(sessions[1..], key)
  }

  function FindStripe(sessions: seq<Session>, stripeId: string): (i: nat)
    ensures i <= |sessions|
    ensures i < |sessions| ==> sessions[i].stripeId == stripeId
    ensures forall j :: 0 <= j < i ==> sessions[j].stripeId != stripeId
  {
    if sessions == [] || sessions[0].stripeId == stripeId then 0 else 1 + FindStripe(sessions[1..], stripeId)
  }

  function Handle(s: State, w: Step): State
    requires w.Webhook?
  {
    var i := FindStripe(s.sessions, w.stripeId);
    if i == |s.sessions| then s
    else
      var session := s.sessions[i];
      match w.eventType
      case Completed =>
        State(s.sessions[i := session.(status := Paid, paidAt := Some(w.at))],
              s.processed,
              s.subscriptions + (if w.subscription != ""
                  then [Subscription(session.account, session.plan, w.subscription)] else []),
              s.activations + [Activation(session.account, session.id, session.plan)])
      case ExpiredEvent => s.(sessions := s.sessions[i := session.(status := Expired)])
      case OtherEvent => s
  }

  function Take(s: State, step: Step): State {
    match step
    case Checkout(account, plan, amount, id, stripeId) =>
      var key := CheckoutKey(account, plan);
      if FindPending(s.sessions, key) < |s.sessions| then s
      else s.(sessions := s.sessions + [Session(id, stripeId, account, plan, amount, key, Pending, None)])
    case Webhook(_, eventId, _, _, _) =>
      if eventId in s.processed then s
      else Handle(s.(processed := s.processed + {eventId}), step)
  }

  function TakeAll(steps: seq<Step>): State {
    if steps == [] then EMPTY else Take(TakeAll(steps[..|steps| - 1]), steps[|steps| - 1])
  }

  // ---- replay ------------------------------------------------------------------------------------

  /** The events that have been delivered. */
  function EventIds(steps: seq<Step>): set<string> {
    if steps == [] then {}
    else
      var n := |steps| - 1;
      EventIds(steps[..n]) + (if steps[n].Webhook? then {steps[n].eventId} else {})
  }

  /** The run without repeated deliveries: the first one of each event stays. */
  function FirstDeliveries(steps: seq<Step>): seq<Step> {
    if steps == [] then []
    else
      var n := |steps| - 1;
      FirstDeliveries(steps[..n]) +
      (if steps[n].Webhook? && steps[n].eventId in EventIds(steps[..n]) then [] else [steps[n]])
  }

  lemma {:induction false} ProcessedAreDelivered(steps: seq<Step>)
    ensures TakeAll(steps).processed == EventIds(steps)
  {
    if steps != [] {
      ProcessedAreDelivered(steps[..|steps| - 1]);
    }
  }

  lemma TakeAllOfAppend(steps: seq<Step>, step: Step)
    ensures TakeAll(steps + [step]) == Take(TakeAll(steps), step)
  {
    assert (steps + [step])[..|steps|] == steps;
  }

  /** Replay safety: deleting repeated deliveries from any run changes nothing at all. */
  lemma {:induction false} ReplaysChangeNothing(steps: seq<Step>)
    ensures TakeAll(FirstDeliveries(steps)) == TakeAll(steps)
  {
    if steps != [] {
      var n := |steps| - 1;
      ReplaysChangeNothing(steps[..n]);
      ProcessedAreDelivered(steps[..n]);
      var first := FirstDeliveries(steps[..n]);
      if steps[n].Webhook? && steps[n].eventId in EventIds(steps[..n]) {
        assert FirstDeliveries(steps) == first;
      } else {
        assert FirstDeliveries(steps) == first + [steps[n]];
        TakeAllOfAppend(first, steps[n]);
      }
    }
  }

  // ---- activations -------------------------------------------------------------------------------

  /** After `before`, this step is the first delivery of its event, and completes a session that exists by then. */
  ghost predicate Activates(before: seq<Step>, step: Step) {
    && step.Webhook? && step.eventType == Completed && step.eventId !in EventIds(before)
    && Known(TakeAll(before).sessions, step.stripeId)
  }

  predicate Known(sessions: seq<Session>, stripeId: string) {
    exists j :: 0 <= j < |sessions| && sessions[j].stripeId == stripeId
  }

  ghost function ActivatingEvents(steps: seq<Step>): set<string> {
    if steps == [] then {}
    else
      var n := |steps| - 1;
      ActivatingEvents(steps[..n]) + (if Activates(steps[..n], steps[n]) then {steps[n].eventId} else {})
  }

  lemma {:induction false} ActivatingEventsAreDelivered(steps: seq<Step>)
    ensures ActivatingEvents(steps) <= EventIds(steps)
  {
    if steps != [] {
      ActivatingEventsAreDelivered(steps[..|steps| - 1]);
    }
  }

  lemma StepActivates(s: State, step: Step)
    ensures |Take(s, step).activations| == |s.activations| +
            (if step.Webhook? && step.eventType == Completed && step.eventId !in s.processed
                && Known(s.sessions, step.stripeId)
             then 1 else 0)
  {
  }

  /** There is one activation for each event whose first delivery completed a known session. */
  lemma {:induction false} ActivationsCountEvents(steps: seq<Step>)
    ensures |TakeAll(steps).activations| == |ActivatingEvents(steps)|
  {
    if steps != [] {
      var n := |steps| - 1;
      ActivationsCountEvents(steps[..n]);
      ActivatingEventsAreDelivered(steps[..n]);
      ProcessedAreDelivered(steps[..n]);
      StepActivates(TakeAll(steps[..n]), steps[n]);
    }
  }

  // ---- one pending session a key --------------------------------------------------------------------

  ghost predicate OnePendingPerKey(sessions: seq<Session>) {
    && (forall i :: 0 <= i < |sessions| ==>
          sessions[i].idempotencyKey == CheckoutKey(sessions[i].account, sessions[i].plan))
    && (forall i, j :: 0 <= i < j < |sessions| && sessions[i].status == sessions[j].status == Pending ==>
          sessions[i].idempotencyKey != sessions[j].idempotencyKey)
  }

  lemma {:induction false} EveryRunHasOnePendingPerKey(steps: seq<Step>)
    ensures OnePendingPerKey(TakeAll(steps).sessions)
  {
    if steps != [] {
      EveryRunHasOnePendingPerKey(steps[..|steps| - 1]);
    }
  }

  /** So no account ever has two pending sessions for one plan. */
  lemma OnePendingPerAccountAndPlan(steps: seq<Step>, i: nat, j: nat)
    requires i < j < |TakeAll(steps).sessions|
    ensures var a, b := TakeAll(steps).sessions[i], TakeAll(steps).sessions[j];
            a.account == b.account && a.plan == b.plan ==> !(a.status == Pending && b.status == Pending)
  {
    EveryRunHasOnePendingPerKey(steps);
  }

  // ---- whose session a checkout returns -------------------------------------------------------------

  /** `b` is `a` up to a colon in `a`. */
  predicate Extends(a: string, b: string) {
    b + ":" <= a
  }

  lemma KeysAreEqualIffTailsAre(a: string, p: string, b: string, q: string)
    ensures CheckoutKey(a, p) == CheckoutKey(b, q) <==> a + ":" + p == b + ":" + q
  {
    assert CheckoutKey(a, p) == "checkout:" + (a + ":" + p) && CheckoutKey(b, q) == "checkout:" + (b + ":" + q);
    assert CheckoutKey(a, p)[9..] == a + ":" + p && CheckoutKey(b, q)[9..] == b + ":" + q;
  }

  lemma PlansOfOneAccountDiffer(a: string, p: string, q: string)
    requires CheckoutKey(a, p) == CheckoutKey(a, q)
    ensures p == q
  {
    KeysAreEqualIffTailsAre(a, p, a, q);
    assert (a + ":" + p)[|a| + 1..] == p && (a + ":" + q)[|a| + 1..] == q;
  }

  lemma SharedKeyExtends(a: string, p: string, b: string, q: string)
    requires CheckoutKey(a, p) == CheckoutKey(b, q) && |b| < |a|
    ensures Extends(a, b)
  {
    KeysAreEqualIffTailsAre(a, p, b, q);
    assert (b + ":") + q == a + (":" + p);
    assert (a + (":" + p))[..|b| + 1] == a[..|b| + 1] && ((b + ":") + q)[..|b| + 1] == b + ":";
  }

  lemma SharedKeyMeansSameLength(a: string, p: string, b: string, q: string)
    requires CheckoutKey(a, p) == CheckoutKey(b, q) && |b| == |a|
    ensures a == b
  {
    KeysAreEqualIffTailsAre(a, p, b, q);
    assert (a + ":" + p)[..|a|] == a && (b + ":" + q)[..|a|] == b;
  }

  /** An account and a shorter one that it extends share a key, for suitable plans. */
  lemma ExtendingAccountsShareKey(a: string, b: string) returns (p: string, q: string)
    requires Extends(a, b)
    ensures CheckoutKey(a, p) == CheckoutKey(b, q)
  {
    p, q := "", a[|b| + 1..] + ":";
    assert a == b + ":" + a[|b| + 1..];
    KeysAreEqualIffTailsAre(a, p, b, q);
  }

  /** Two accounts can share a key exactly when one of them is the other up to a colon. */
  lemma AccountsCollideIffOneExtends(a: string, b: string)
    requires a != b
    ensures (exists p, q :: CheckoutKey(a, p) == CheckoutKey(b, q)) <==> Extends(a, b) || Extends(b, a)
  {
    if p, q :| CheckoutKey(a, p) == CheckoutKey(b, q) {
      if |a| > |b| {
        SharedKeyExtends(a, p, b, q);
      } else if |b| > |a| {
        SharedKeyExtends(b, q, a, p);
      } else {
        SharedKeyMeansSameLength(a, p, b, q);
      }
    }
    if Extends(a, b) {
      var p, q := ExtendingAccountsShareKey(a, b);
    }
    if Extends(b, a) {
      var q, p := ExtendingAccountsShareKey(b, a);
      assert CheckoutKey(a, p) == CheckoutKey(b, q);
    }
  }

  lemma ExtendingNeedsColon(a: string, b: string)
    ensures Extends(a, b) ==> ':' in a
  {
    if Extends(a, b) {
      assert (b + ":")[|b|] == ':' && (b + ":")[|b|] == a[|b|];
    }
  }

  /** In particular the key identifies account and plan as long as account ids contain no colon. */
  lemma CheckoutKeyIsInjective(a: string, p: string, b: string, q: string)
    requires ':' !in a && ':' !in b
    ensures CheckoutKey(a, p) == CheckoutKey(b, q) <==> a == b && p == q
  {
    ExtendingNeedsColon(a, b);
    ExtendingNeedsColon(b, a);
    if CheckoutKey(a, p) == CheckoutKey(b, q) {
      if a != b {
        AccountsCollideIffOneExtends(a, b);
      } else {
        PlansOfOneAccountDiffer(a, p, q);
      }
    }
  }

  /** What a checkout returns: the pending session of its key, or the new one. */
  function SessionFor(sessions: seq<Session>, step: Step): Session
    requires step.Checkout?
  {
    var key := CheckoutKey(step.account, step.plan);
    var i := FindPending(sessions, key);
    if i < |sessions| then sessions[i]
    else Session(step.id, step.stripeId, step.account, step.plan, step.amountCents, key, Pending, None)
  }

  /** Step `k` of the run, if it is a checkout, returns a session of its own account and plan. */
  ghost predicate ReturnsOwn(steps: seq<Step>, k: nat)
    requires k < |steps|
  {
    steps[k].Checkout? ==>
      var session := SessionFor(TakeAll(steps[..k]).sessions, steps[k]);
      session.account == steps[k].account && session.plan == steps[k].plan
  }

  ghost predicate AllReturnOwn(steps: seq<Step>) {
    forall k :: 0 <= k < |steps| ==> ReturnsOwn(steps, k)
  }

  /** Only these accounts check out. */
  ghost predicate UsesOnly(steps: seq<Step>, accounts: set<string>) {
    forall k :: 0 <= k < |steps| && steps[k].Checkout? ==> steps[k].account in accounts
  }

  ghost predicate NoneExtends(accounts: set<string>) {
    forall a, b :: a in accounts && b in accounts ==> !Extends(a, b)
  }

  lemma {:induction false} SessionsAreOfUsers(steps: seq<Step>, accounts: set<string>)
    requires UsesOnly(steps, accounts)
    ensures forall i :: 0 <= i < |TakeAll(steps).sessions| ==> TakeAll(steps).sessions[i].account in accounts
  {
    if steps != [] {
      SessionsAreOfUsers(steps[..|steps| - 1], accounts);
    }
  }

  lemma CheckoutReturnsOwn(steps: seq<Step>, accounts: set<string>, k: nat)
    requires NoneExtends(accounts) && UsesOnly(steps, accounts) && k < |steps|
    ensures ReturnsOwn(steps, k)
  {
    if steps[k].Checkout? {
      var sessions, key := TakeAll(steps[..k]).sessions, CheckoutKey(steps[k].account, steps[k].plan);
      SessionsAreOfUsers(steps[..k], accounts);
      EveryRunHasOnePendingPerKey(steps[..k]);
      var i := FindPending(sessions, key);
      if i < |sessions| {
        var session := sessions[i];
        assert CheckoutKey(session.account, session.plan) == key;
        if session.account != steps[k].account {
          AccountsCollideIffOneExtends(session.account, steps[k].account);
        } else {
          PlansOfOneAccountDiffer(session.account, session.plan, steps[k].plan);
        }
      }
    }
  }

  /** When `a` extends `b`, the second of two checkouts returns the session of the other account. */
  lemma ExtendingAccountTakesOver(a: string, b: string) returns (steps: seq<Step>)
    requires Extends(a, b)
    ensures |steps| == 2 && steps[0].Checkout? && steps[0].account == a && steps[1].Checkout? && steps[1].account == b
    ensures SessionFor(TakeAll(steps[..1]).sessions, steps[1]).account == a
  {
    var p, q := ExtendingAccountsShareKey(a, b);
    steps := [Checkout(a, p, 1, "s1", "cs1"), Checkout(b, q, 2, "s2", "cs2")];
    var first := Session("s1", "cs1", a, p, 1, CheckoutKey(a, p), Pending, None);
    assert steps[..1] == [steps[0]] && steps[..1][..0] == [];
    assert TakeAll(steps[..1]).sessions == [first];
    assert FindPending([first], CheckoutKey(b, q)) == 0;
  }

  /**
   Every checkout of every run returns a session of its own account and plan exactly when no account
   in use is another one up to a colon.
   */
  lemma CheckoutsReturnOwnIffNoneExtends(accounts: set<string>)
    ensures (forall steps: seq<Step> :: UsesOnly(steps, accounts) ==> AllReturnOwn(steps)) <==> NoneExtends(accounts)
  {
    if NoneExtends(accounts) {
      forall steps: seq<Step>, k | UsesOnly(steps, accounts) && 0 <= k < |steps|
        ensures ReturnsOwn(steps, k)
      {
        CheckoutReturnsOwn(steps, accounts, k);
      }
    } else {
      var a, b :| a in accounts && b in accounts && Extends(a, b);
      var steps := ExtendingAccountTakesOver(a, b);
      assert UsesOnly(steps, accounts) && !ReturnsOwn(steps, 1);
    }
  }

  /** For instance: the second account is handed the session of the first. */
  lemma CheckoutKeysCanCollide()
    ensures CheckoutKey("a:b", "c") == CheckoutKey("a", "b:c")
    ensures !NoneExtends({"a:b", "a"})
  {
    assert Extends("a:b", "a");
  }

  // ---- what becomes of a session -----------------------------------------------------------------------

  /** Step `k` is the first delivery of an event that settles session `i`, the first one with its Stripe id. */
  ghost predicate Settles(steps: seq<Step>, k: nat, i: nat) {
    && k < |steps| && steps[k].Webhook? && steps[k].eventType != OtherEvent
    && steps[k].eventId !in EventIds(steps[..k])
    && var sessions := TakeAll(steps[..k]).sessions;
       && i < |sessions| && sessions[i].stripeId == steps[k].stripeId
       && forall j :: 0 <= j < i ==> sessions[j].stripeId != steps[k].stripeId
  }

  /** A completed session is paid at that time, any other expires and keeps the time of an earlier payment. */
  function Settled(session: Session, step: Step): Session
    requires step.Webhook?
  {
    if step.eventType == Completed then session.(status := Paid, paidAt := Some(step.at))
    else session.(status := Expired)
  }

  /** Session `i` as it is after `n` steps. */
  ghost predicate IsAfter(steps: seq<Step>, n: nat, i: nat, session: Session)
    requires n <= |steps|
  {
    i < |TakeAll(steps[..n]).sessions| && TakeAll(steps[..n]).sessions[i] == session
  }

  lemma StepOnSession(steps: seq<Step>, n: nat, i: nat, session: Session)
    requires n < |steps| && IsAfter(steps, n, i, session)
    ensures IsAfter(steps, n + 1, i, if Settles(steps, n, i) then Settled(session, steps[n]) else session)
  {
    assert steps[..n + 1][..n] == steps[..n];
    ProcessedAreDelivered(steps[..n]);
  }

  lemma {:induction false} SettledStays(steps: seq<Step>, k: nat, i: nat, n: nat)
    requires k < n <= |steps| && Settles(steps, k, i) && forall m :: k < m < n ==> !Settles(steps, m, i)
    ensures IsAfter(steps, n, i, Settled(TakeAll(steps[..k]).sessions[i], steps[k]))
    decreases n
  {
    if k < n - 1 {
      SettledStays(steps, k, i, n - 1);
      StepOnSession(steps, n - 1, i, Settled(TakeAll(steps[..k]).sessions[i], steps[k]));
    } else {
      StepOnSession(steps, k, i, TakeAll(steps[..k]).sessions[i]);
    }
  }

  /** A session is as the last such event left it, whatever is replayed. */
  lemma LastEventSettles(steps: seq<Step>, k: nat, i: nat)
    requires Settles(steps, k, i) && forall m :: k < m < |steps| ==> !Settles(steps, m, i)
    ensures i < |TakeAll(steps).sessions|
    ensures TakeAll(steps).sessions[i] == Settled(TakeAll(steps[..k]).sessions[i], steps[k])
  {
    SettledStays(steps, k, i, |steps|);
    assert steps[..|steps|] == steps;
  }

  lemma {:induction false} PendingUntilSettled(steps: seq<Step>, i: nat, n: nat)
    requires n <= |steps| && i < |TakeAll(steps[..n]).sessions| && forall m :: 0 <= m < n ==> !Settles(steps, m, i)
    ensures TakeAll(steps[..n]).sessions[i].status == Pending && TakeAll(steps[..n]).sessions[i].paidAt == None
    decreases n
  {
    assert steps[..n][..n - 1] == steps[..n - 1];
    if i < |TakeAll(steps[..n - 1]).sessions| {
      PendingUntilSettled(steps, i, n - 1);
      StepOnSession(steps, n - 1, i, TakeAll(steps[..n - 1]).sessions[i]);
    }
  }

  /** A session that no event has settled is pending and unpaid. */
  lemma UnsettledIsPending(steps: seq<Step>, i: nat)
    requires i < |TakeAll(steps).sessions| && forall m :: 0 <= m < |steps| ==> !Settles(steps, m, i)
    ensures TakeAll(steps).sessions[i].status == Pending && TakeAll(steps).sessions[i].paidAt == None
  {
    assert steps[..|steps|] == steps;
    PendingUntilSettled(steps, i, |steps|);
  }

  class BillingService {
    var sessions: seq<Session>
    var processed: set<string>
    var subscriptions: seq<Subscription>
    var activations: seq<Activation>

    ghost function Model(): State
      reads this
    {
      State(sessions, processed, subscriptions, activations)
    }

    constructor ()
      ensures Model() == EMPTY
    {
      sessions, processed, subscriptions, activations := [], {}, [], [];
    }

    method CreateCheckout(account: string, plan: string, amountCents: int, id: string, stripeId: string)
      returns (session: Session)
      modifies this`sessions
      ensures if exists s :: s in old(sessions) && s.status == Pending
                             && s.idempotencyKey == "checkout:" + account + ":" + plan
              then sessions == old(sessions)
              else session == Session(id, stripeId, account, plan, amountCents, "checkout:" + account + ":" + plan,
                                      Pending, None)
                   && sessions == old(sessions) + [session]
      ensures Model() == Take(old(Model()), Checkout(account, plan, amountCents, id, stripeId))
      ensures session == SessionFor(old(sessions), Checkout(account, plan, amountCents, id, stripeId))
      ensures session in sessions && session.status == Pending && session.idempotencyKey == CheckoutKey(account, plan)
    {
      var key := CheckoutKey(account, plan);
      for i := 0 to |sessions|
        invariant FindPending(sessions, key) >= i
      {
        if sessions[i].idempotencyKey == key && sessions[i].status == Pending {
          return sessions[i];
        }
      }
      session := Session(id, stripeId, account, plan, amountCents, key, Pending, None);
      sessions := sessions + [session];
    }

    /** The first result tells whether the event was handled. */
    method ProcessWebhook(eventId: string, eventType: EventType, stripeId: string, subscription: string, now: Instant)
      returns (handled: bool)
      modifies this
      ensures processed == old(processed) + {eventId}
      ensures !handled ==>
                sessions == old(sessions) && subscriptions == old(subscriptions) && activations == old(activations)
      ensures handled && eventType == Completed ==>
                var i := FindStripe(old(sessions), stripeId);
                && i < |old(sessions)|
                && sessions == old(sessions)[i := old(sessions)[i].(status := Paid, paidAt := Some(now))]
                && activations == old(activations)
                   + [Activation(sessions[i].account, sessions[i].id, sessions[i].plan)]
                && subscriptions == old(subscriptions)
                   + if subscription == "" then []
                     else [Subscription(sessions[i].account, sessions[i].plan, subscription)]
      ensures handled && eventType == ExpiredEvent ==>
                var i := FindStripe(old(sessions), stripeId);
                && i < |old(sessions)| && sessions == old(sessions)[i := old(sessions)[i].(status := Expired)]
                && subscriptions == old(subscriptions) && activations == old(activations)
      ensures Model() == Take(old(Model()), Webhook(now, eventId, eventType, stripeId, subscription))
      ensures handled <==> eventId !in old(processed) && eventType != OtherEvent && Known(old(sessions), stripeId)
    {
      if eventId in processed {
        return false;
      }
      processed := processed + {eventId};
      var i := 0;
      while i < |sessions| && sessions[i].stripeId != stripeId
        invariant i <= |sessions| && i <= FindStripe(sessions, stripeId)
      {
        i := i + 1;
      }
      if i == |sessions| {
        return false;
      }
      var session := sessions[i];
      if eventType == Completed {
        session := session.(status := Paid);
        session := session.(paidAt := Some(now));
        sessions := sessions[i := session];
        if subscription != "" {
          subscriptions := subscriptions + [Subscription(session.account, session.plan, subscription)];
        }
        activations := activations + [Activation(session.account, session.id, session.plan)];
        return true;
      } else if eventType == ExpiredEvent {
        sessions := sessions[i := session.(status := Expired)];
        return true;
      }
      return false;
    }
  }
}
